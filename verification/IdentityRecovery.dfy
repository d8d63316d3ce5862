/** Diagnosis and deterministic recovery of historical identities (tools/diagnose_identity_recovery.py).

    Accounts are listed in the order of their identifiers and named by their position; identifiers are stored
    trimmed, a blank one being absent. */
module IdentityRecovery {
  import opened Options

  /** `external`: the account has an issuer and a subject. */
  datatype Account = Account(external: bool, employee: Option<string>, erpUser: Option<string>)

  /** The employee of every directory entry. */
  type Entries = map<string, Option<string>>

  datatype Reason =
    | LinkedUserMissing | EmployeeMismatch | EmployeeMissing
    | UserNotFound | UserAmbiguous | UserAlreadyOwned | BackfillPending

  datatype Diagnostic = Diagnostic(account: nat, employee: Option<string>, erpUser: Option<string>,
      candidates: set<string>, reason: Reason)

  datatype Report = Report(ok: bool, unresolved: nat, diagnostics: seq<Diagnostic>, recovered: seq<nat>)

  function Candidates(entries: Entries, employee: string): set<string> {
    set u | u in entries && entries[u] == Some(employee)
  }

  predicate Owned(accounts: seq<Account>, erpUser: string) {
    exists i :: 0 <= i < |accounts| && accounts[i].erpUser == Some(erpUser)
  }

  /** Why an account without an ERP user has none. */
  function UnlinkedReason(entries: Entries, accounts: seq<Account>, employee: string): Reason {
    var candidates := Candidates(entries, employee);
    if candidates == {} then UserNotFound
    else if |candidates| > 1 then UserAmbiguous
    else if exists u :: u in candidates && Owned(accounts, u) then UserAlreadyOwned
    else BackfillPending
  }

  function Diagnose(entries: Entries, accounts: seq<Account>, i: nat): Option<Diagnostic>
    requires i < |accounts|
  {
    var Account(external, employee, erpUser) := accounts[i];
    if !external then None
    else if erpUser.Some? then
      if erpUser.value !in entries then Some(Diagnostic(i, employee, erpUser, {}, LinkedUserMissing))
      else if employee.None? || entries[erpUser.value].None? || entries[erpUser.value] != employee
      then Some(Diagnostic(i, employee, erpUser, {erpUser.value}, EmployeeMismatch))
      else None
    else if employee.None? then Some(Diagnostic(i, None, None, {}, EmployeeMissing))
    else
      Some(Diagnostic(i, employee, None, Candidates(entries, employee.value),
          UnlinkedReason(entries, accounts, employee.value)))
  }

  /** The diagnostics of the first n accounts. */
  function DiagnosticsOf(entries: Entries, accounts: seq<Account>, n: nat): seq<Diagnostic>
    requires n <= |accounts|
  {
    if n == 0 then []
    else
      var d := Diagnose(entries, accounts, n - 1);
      DiagnosticsOf(entries, accounts, n - 1) + (if d.Some? then [d.value] else [])
  }

  // ---------------------------------------------------------------- recovery

  /** The candidate a diagnostic recovers, if it still may. */
  function Recoverable(entries: Entries, accounts: seq<Account>, d: Diagnostic): Option<string>
    requires d.account < |accounts|
  {
    if d.reason != BackfillPending || d.employee.None? || |d.candidates| != 1 then None
    else if accounts[d.account].erpUser.Some? then None
    else if Candidates(entries, d.employee.value) != d.candidates then None
    else
      SingletonHasOne(d.candidates);
      var candidate: string :| candidate in d.candidates;
      if Owned(accounts, candidate) then None else Some(candidate)
  }

  lemma SingletonHasOne<T>(s: set<T>)
    requires |s| == 1
    ensures exists x :: x in s
    ensures forall x, y :: x in s && y in s ==> x == y
  {
    var x :| x in s;
    assert |s - {x}| == 0;
    assert forall y :: y in s && y != x ==> y in s - {x};
  }

  function RecoverOne(entries: Entries, accounts: seq<Account>, d: Diagnostic): (r: seq<Account>)
    requires d.account < |accounts|
    ensures |r| == |accounts|
  {
    var user := Recoverable(entries, accounts, d);
    if user.None? then accounts else accounts[d.account := accounts[d.account].(erpUser := user)]
  }

  /** The accounts after the first k diagnostics. */
  function Recovered(entries: Entries, accounts: seq<Account>, diagnostics: seq<Diagnostic>, k: nat): (r: seq<Account>)
    requires k <= |diagnostics| && forall i :: 0 <= i < |diagnostics| ==> diagnostics[i].account < |accounts|
    ensures |r| == |accounts|
  {
    if k == 0 then accounts
        else RecoverOne(entries, Recovered(entries, accounts, diagnostics, k - 1), diagnostics[k - 1])
  }

  function RecoveredAccounts(entries: Entries, accounts: seq<Account>, diagnostics: seq<Diagnostic>, k: nat): seq<nat>
    requires k <= |diagnostics| && forall i :: 0 <= i < |diagnostics| ==> diagnostics[i].account < |accounts|
  {
    if k == 0 then []
    else
      var before := Recovered(entries, accounts, diagnostics, k - 1);
      RecoveredAccounts(entries, accounts, diagnostics, k - 1) +
      (if Recoverable(entries, before, diagnostics[k - 1]).Some? then [diagnostics[k - 1].account] else [])
  }

  lemma {:induction false} DiagnosticsNameAccounts(entries: Entries, accounts: seq<Account>, n: nat)
    requires n <= |accounts|
    ensures forall d :: d in DiagnosticsOf(entries, accounts, n) ==>
            d.account < n && Diagnose(entries, accounts, d.account) == Some(d)
    ensures forall i: nat :: i < n && Diagnose(entries, accounts, i).Some? ==>
            Diagnose(entries, accounts, i).value in DiagnosticsOf(entries, accounts, n)
  {
    if n > 0 { DiagnosticsNameAccounts(entries, accounts, n - 1); }
  }

  /** apply_deterministic_identity_recovery on the inspected diagnostics. */
  function Apply(entries: Entries, accounts: seq<Account>): (seq<Account>, seq<nat>) {
    var diagnostics := DiagnosticsOf(entries, accounts, |accounts|);
    DiagnosticsNameAccounts(entries, accounts, |accounts|);
    (Recovered(entries, accounts, diagnostics, |diagnostics|),
        RecoveredAccounts(entries, accounts, diagnostics, |diagnostics|))
  }

  // ---------------------------------------------------------------- what recovery keeps and changes

  /** No ERP user belongs to two accounts. */
  ghost predicate Unique(accounts: seq<Account>) {
    forall i, j :: 0 <= i < j < |accounts| && accounts[i].erpUser.Some? ==> accounts[i].erpUser != accounts[j].erpUser
  }

  /** The account was unlinked, external, and its employee has exactly one directory entry. */
  ghost predicate ExactMatch(entries: Entries, before: Account, after: Account) {
    && before.external && before.employee.Some? && before.erpUser.None? && after.erpUser.Some?
    && after == before.(erpUser := after.erpUser)
    && Candidates(entries, before.employee.value) == {after.erpUser.value}
  }

  lemma RecoverOneKeeps(entries: Entries, accounts: seq<Account>, d: Diagnostic)
    requires d.account < |accounts| && Unique(accounts)
    requires accounts[d.account].erpUser.None? ==> d.reason == BackfillPending ==>
             accounts[d.account].external && accounts[d.account].employee == d.employee
    ensures Unique(RecoverOne(entries, accounts, d))
    ensures forall i :: 0 <= i < |accounts| && i != d.account ==> RecoverOne(entries, accounts, d)[i] == accounts[i]
    ensures Recoverable(entries, accounts, d).Some? ==>
            ExactMatch(entries, accounts[d.account], RecoverOne(entries, accounts, d)[d.account])
    ensures Recoverable(entries, accounts, d).None? ==> RecoverOne(entries, accounts, d) == accounts
  {
    var user := Recoverable(entries, accounts, d);
    if user.Some? {
      SingletonHasOne(d.candidates);
      assert d.candidates == {user.value};
    }
  }

  /** Each account is as before, or was matched exactly. */
  ghost predicate Matched(entries: Entries, before: seq<Account>, after: seq<Account>) {
    && |before| == |after|
    && forall i :: 0 <= i < |before| ==> after[i] == before[i] || ExactMatch(entries, before[i], after[i])
  }

  /** Diagnostics of the original accounts, each account once. */
  ghost predicate Inspected(entries: Entries, accounts: seq<Account>, diagnostics: seq<Diagnostic>) {
    && (forall k :: 0 <= k < |diagnostics| ==>
         diagnostics[k].account < |accounts| &&
             Diagnose(entries, accounts, diagnostics[k].account) == Some(diagnostics[k]))
    && Increasing(diagnostics)
  }

  ghost predicate Increasing(diagnostics: seq<Diagnostic>) {
    forall j, k :: 0 <= j < k < |diagnostics| ==> diagnostics[j].account < diagnostics[k].account
  }

  lemma IncreasingSnoc(diagnostics: seq<Diagnostic>, d: Diagnostic)
    requires Increasing(diagnostics) && forall x :: x in diagnostics ==> x.account < d.account
    ensures Increasing(diagnostics + [d])
  {
    forall k | 0 <= k < |diagnostics|
        ensures diagnostics[k].account < d.account { assert diagnostics[k] in diagnostics; }
  }

  lemma {:induction false} InspectionIncreases(entries: Entries, accounts: seq<Account>, n: nat)
    requires n <= |accounts|
    ensures Increasing(DiagnosticsOf(entries, accounts, n))
  {
    if n > 0 {
      InspectionIncreases(entries, accounts, n - 1);
      DiagnosticsNameAccounts(entries, accounts, n - 1);
      var d := Diagnose(entries, accounts, n - 1);
      if d.Some? { IncreasingSnoc(DiagnosticsOf(entries, accounts, n - 1), d.value); }
    }
  }

  lemma InspectionIsOrdered(entries: Entries, accounts: seq<Account>)
    ensures Inspected(entries, accounts, DiagnosticsOf(entries, accounts, |accounts|))
  {
    InspectionIncreases(entries, accounts, |accounts|);
    DiagnosticsNameAccounts(entries, accounts, |accounts|);
  }

  /** One pass over inspected diagnostics keeps ERP users unique, makes exact matches only, touches no account
      whose diagnostic is still to come, and leaves every candidate it looked at with an owner. */
  lemma {:induction false} PassKeeps(entries: Entries, accounts: seq<Account>, diagnostics: seq<Diagnostic>, k: nat)
    requires Inspected(entries, accounts, diagnostics) && k <= |diagnostics| && Unique(accounts)
    ensures var after := Recovered(entries, accounts, diagnostics, k);
            && Unique(after) && Matched(entries, accounts, after)
            && (forall j :: k <= j < |diagnostics| ==>
                 after[diagnostics[j].account] == accounts[diagnostics[j].account])
            && (forall u :: Owned(accounts, u) ==> Owned(after, u))
            && (forall j, u ::
                 0 <= j < k && diagnostics[j].reason == BackfillPending && u in diagnostics[j].candidates ==>
                     Owned(after, u))
  {
    if k > 0 {
      PassKeeps(entries, accounts, diagnostics, k - 1);
      var before, d := Recovered(entries, accounts, diagnostics, k - 1), diagnostics[k - 1];
      RecoverOneKeeps(entries, before, d);
      OwnersStay(entries, before, d);
      if d.reason == BackfillPending { PendingGetsOwner(entries, accounts, before, d); }
    }
  }

  lemma OwnersStay(entries: Entries, accounts: seq<Account>, d: Diagnostic)
    requires d.account < |accounts|
    ensures forall u :: Owned(accounts, u) ==> Owned(RecoverOne(entries, accounts, d), u)
  {
    var after := RecoverOne(entries, accounts, d);
    forall u | Owned(accounts, u) ensures Owned(after, u) {
      var i :| 0 <= i < |accounts| && accounts[i].erpUser == Some(u);
      assert after[i].erpUser == Some(u);
    }
  }

  lemma PendingGetsOwner(entries: Entries, accounts: seq<Account>, before: seq<Account>, d: Diagnostic)
    requires |before| == |accounts| && d.account < |accounts| && Diagnose(entries, accounts, d.account) == Some(d)
    requires before[d.account] == accounts[d.account] && d.reason == BackfillPending
    ensures forall u :: u in d.candidates ==> Owned(RecoverOne(entries, before, d), u)
  {
    var after := RecoverOne(entries, before, d);
    assert |d.candidates| == 1;
    SingletonHasOne(d.candidates);
    forall u | u in d.candidates ensures Owned(after, u) {
      if Recoverable(entries, before, d).Some? {
        assert after[d.account].erpUser == Some(u);
      } else {
        OwnersStay(entries, before, d);
      }
    }
  }

  // ---------------------------------------------------------------- counting

  /** An account is unresolved on its own: other accounts only change the reason. */
  predicate IsUnresolved(entries: Entries, a: Account) {
    a.external && (a.erpUser.Some? ==>
        a.erpUser.value !in entries || a.employee.None? || entries[a.erpUser.value] != a.employee)
  }

  function UnresolvedCount(entries: Entries, accounts: seq<Account>, n: nat): nat
    requires n <= |accounts|
  {
    if n == 0 then 0
        else UnresolvedCount(entries, accounts, n - 1) + (if IsUnresolved(entries, accounts[n - 1]) then 1 else 0)
  }

  lemma {:induction false} EveryUnresolvedIsDiagnosed(entries: Entries, accounts: seq<Account>, n: nat)
    requires n <= |accounts|
    ensures |DiagnosticsOf(entries, accounts, n)| == UnresolvedCount(entries, accounts, n)
  {
    if n > 0 { EveryUnresolvedIsDiagnosed(entries, accounts, n - 1); }
  }

  lemma {:induction false} ResolvingCounts(entries: Entries, accounts: seq<Account>, i: nat, a: Account, n: nat)
    requires i < |accounts| && n <= |accounts| && IsUnresolved(entries, accounts[i]) && !IsUnresolved(entries, a)
    ensures UnresolvedCount(entries, accounts[i := a], n) + (if i < n then 1 else 0) ==
            UnresolvedCount(entries, accounts, n)
  {
    if n > 0 { ResolvingCounts(entries, accounts, i, a, n - 1); }
  }

  lemma ExactMatchResolves(entries: Entries, before: Account, after: Account)
    requires ExactMatch(entries, before, after)
    ensures IsUnresolved(entries, before) && !IsUnresolved(entries, after)
  {
    assert after.erpUser.value in Candidates(entries, before.employee.value);
  }

  lemma {:induction false} PassCounts(entries: Entries, accounts: seq<Account>, diagnostics: seq<Diagnostic>, k: nat)
    requires Inspected(entries, accounts, diagnostics) && k <= |diagnostics| && Unique(accounts)
    ensures UnresolvedCount(entries, Recovered(entries, accounts, diagnostics, k), |accounts|) +
            |RecoveredAccounts(entries, accounts, diagnostics, k)|
              == UnresolvedCount(entries, accounts, |accounts|)
    ensures forall i :: i in RecoveredAccounts(entries, accounts, diagnostics, k) ==>
              exists j :: 0 <= j < k && diagnostics[j].account == i && diagnostics[j].reason == BackfillPending
  {
    if k > 0 {
      PassCounts(entries, accounts, diagnostics, k - 1);
      PassKeeps(entries, accounts, diagnostics, k - 1);
      var before, d := Recovered(entries, accounts, diagnostics, k - 1), diagnostics[k - 1];
      RecoverOneKeeps(entries, before, d);
      if Recoverable(entries, before, d).Some? {
        var after := RecoverOne(entries, before, d);
        ExactMatchResolves(entries, before[d.account], after[d.account]);
        ResolvingCounts(entries, before, d.account, after[d.account], |accounts|);
      }
    }
  }

  // ---------------------------------------------------------------- the result

  /** Recovery keeps ERP users unique, changes an account only by an exact match with a single, unowned
      candidate, and lowers the number of unresolved accounts by exactly the number recovered. */
  lemma RecoveryIsSound(entries: Entries, accounts: seq<Account>)
    requires Unique(accounts)
    ensures var (after, recovered) := Apply(entries, accounts);
            && Unique(after) && Matched(entries, accounts, after)
            && |DiagnosticsOf(entries, after, |after|)| + |recovered| == |DiagnosticsOf(entries, accounts, |accounts|)|
            && forall i :: i in recovered ==>
                 i < |accounts| && Diagnose(entries, accounts, i).Some? &&
                     Diagnose(entries, accounts, i).value.reason == BackfillPending
  {
    var diagnostics := DiagnosticsOf(entries, accounts, |accounts|);
    var after := Apply(entries, accounts).0;
    InspectionIsOrdered(entries, accounts);
    PassKeeps(entries, accounts, diagnostics, |diagnostics|);
    PassCounts(entries, accounts, diagnostics, |diagnostics|);
    EveryUnresolvedIsDiagnosed(entries, accounts, |accounts|);
    EveryUnresolvedIsDiagnosed(entries, after, |after|);
  }

  /** Whatever was pending has an owner after the pass. */
  lemma PendingIsOwned(entries: Entries, accounts: seq<Account>, i: nat)
    requires Unique(accounts) && i < |accounts|
    requires Diagnose(entries, accounts, i).Some? && Diagnose(entries, accounts, i).value.reason == BackfillPending
    ensures forall u :: u in Diagnose(entries, accounts, i).value.candidates ==> Owned(Apply(entries, accounts).0, u)
  {
    var diagnostics := DiagnosticsOf(entries, accounts, |accounts|);
    InspectionIsOrdered(entries, accounts);
    DiagnosticsNameAccounts(entries, accounts, |accounts|);
    PassKeeps(entries, accounts, diagnostics, |diagnostics|);
    var j :| 0 <= j < |diagnostics| && diagnostics[j] == Diagnose(entries, accounts, i).value;
  }

  lemma UnownedCandidate(entries: Entries, accounts: seq<Account>, i: nat)
    requires i < |accounts| && Diagnose(entries, accounts, i).Some? &&
             Diagnose(entries, accounts, i).value.reason == BackfillPending
    ensures exists u :: u in Diagnose(entries, accounts, i).value.candidates && !Owned(accounts, u)
  {
    var candidates := Diagnose(entries, accounts, i).value.candidates;
    assert candidates != {};
    var u :| u in candidates;
  }

  /** An account left pending was pending before, with the same candidates. */
  lemma SameVerdict(entries: Entries, accounts: seq<Account>, after: seq<Account>, i: nat)
    requires i < |accounts| == |after| && Matched(entries, accounts, after) &&
             (forall u :: Owned(accounts, u) ==> Owned(after, u))
    requires Diagnose(entries, after, i).Some? && Diagnose(entries, after, i).value.reason == BackfillPending
    ensures Diagnose(entries, accounts, i) == Diagnose(entries, after, i)
  {
  }

  lemma ApplyMatches(entries: Entries, accounts: seq<Account>)
    requires Unique(accounts)
    ensures var after := Apply(entries, accounts).0;
            Matched(entries, accounts, after) && forall u :: Owned(accounts, u) ==> Owned(after, u)
  {
    var diagnostics := DiagnosticsOf(entries, accounts, |accounts|);
    InspectionIsOrdered(entries, accounts);
    PassKeeps(entries, accounts, diagnostics, |diagnostics|);
  }

  /** No pending diagnostic is left. */
  lemma NothingStaysPending(entries: Entries, accounts: seq<Account>, i: nat)
    requires Unique(accounts) && i < |accounts|
    ensures |Apply(entries, accounts).0| == |accounts|
    ensures var d := Diagnose(entries, Apply(entries, accounts).0, i); d.Some? ==> d.value.reason != BackfillPending
  {
    var after := Apply(entries, accounts).0;
    ApplyMatches(entries, accounts);
    if Diagnose(entries, after, i).Some? && Diagnose(entries, after, i).value.reason == BackfillPending {
      SameVerdict(entries, accounts, after, i);
      PendingIsOwned(entries, accounts, i);
      UnownedCandidate(entries, after, i);
      assert false;
    }
  }

  lemma {:induction false} NothingPendingNothingDone(entries: Entries, accounts: seq<Account>,
      diagnostics: seq<Diagnostic>, k: nat)
    requires k <= |diagnostics| && (forall i :: 0 <= i < |diagnostics| ==> diagnostics[i].account < |accounts|)
    requires forall d :: d in diagnostics ==> d.reason != BackfillPending
    ensures Recovered(entries, accounts, diagnostics, k) == accounts &&
            RecoveredAccounts(entries, accounts, diagnostics, k) == []
  {
    if k > 0 { NothingPendingNothingDone(entries, accounts, diagnostics, k - 1); }
  }

  /** A second run recovers nothing. */
  lemma SecondRunRecoversNothing(entries: Entries, accounts: seq<Account>)
    requires Unique(accounts)
    ensures var after := Apply(entries, accounts).0; Apply(entries, after) == (after, [])
  {
    var after := Apply(entries, accounts).0;
    var diagnostics := DiagnosticsOf(entries, after, |after|);
    DiagnosticsNameAccounts(entries, after, |after|);
    forall d | d in diagnostics ensures d.reason != BackfillPending {
      NothingStaysPending(entries, accounts, d.account);
    }
    NothingPendingNothingDone(entries, after, diagnostics, |diagnostics|);
  }

  // ---------------------------------------------------------------- what is diagnosed, and what is recovered

  /** A directory entry of an employee. */
  predicate Serves(entries: Entries, employee: string, u: string) {
    u in entries && entries[u] == Some(employee)
  }

  ghost predicate OnlyServes(entries: Entries, employee: string, u: string) {
    Serves(entries, employee, u) && forall v :: Serves(entries, employee, v) ==> v == u
  }

  /** Some account has the ERP user. */
  ghost predicate Taken(accounts: seq<Account>, u: string) {
    exists i: nat :: Has(accounts, i, u)
  }

  predicate Has(accounts: seq<Account>, i: nat, u: string) {
    i < |accounts| && accounts[i].erpUser == Some(u)
  }

  /** What is true of an account with a diagnosis. */
  ghost predicate IsDiagnosis(entries: Entries, accounts: seq<Account>, d: Diagnostic) {
    && d.account < |accounts| && accounts[d.account].external
    && d.employee == accounts[d.account].employee && d.erpUser == accounts[d.account].erpUser
    && if d.erpUser.Some? then IsBroken(entries, d) else IsUnlinked(entries, accounts, d)
  }

  /** An account whose ERP user is unknown, or is that of another employee. */
  ghost predicate IsBroken(entries: Entries, d: Diagnostic)
    requires d.erpUser.Some?
  {
    if d.erpUser.value !in entries then d.reason == LinkedUserMissing && d.candidates == {}
    else
      && (d.employee.None? || !Serves(entries, d.employee.value, d.erpUser.value))
      && d.reason == EmployeeMismatch && d.candidates == {d.erpUser.value}
  }

  /** An account without an ERP user: its employee is unknown, or has no, several or one entry in the directory. */
  ghost predicate IsUnlinked(entries: Entries, accounts: seq<Account>, d: Diagnostic) {
    if d.employee.None? then d.reason == EmployeeMissing && d.candidates == {}
    else
      && (forall u :: u in d.candidates <==> Serves(entries, d.employee.value, u))
      && match d.reason
         case UserNotFound => forall u :: !Serves(entries, d.employee.value, u)
         case UserAmbiguous =>
           exists u, v :: u != v && Serves(entries, d.employee.value, u) && Serves(entries, d.employee.value, v)
         case UserAlreadyOwned => exists u :: OnlyServes(entries, d.employee.value, u) && Taken(accounts, u)
         case BackfillPending => exists u :: OnlyServes(entries, d.employee.value, u) && !Taken(accounts, u)
         case _ => false
  }

  lemma CandidatesExactly(entries: Entries, accounts: seq<Account>, employee: string)
    ensures var candidates := Candidates(entries, employee);
            && (forall u :: u in candidates <==> Serves(entries, employee, u))
            && (|candidates| == 1 <==> exists u :: OnlyServes(entries, employee, u))
            && (|candidates| > 1 <==>
                 exists u, v :: u != v && Serves(entries, employee, u) && Serves(entries, employee, v))
    ensures forall u :: Owned(accounts, u) <==> Taken(accounts, u)
  {
    var candidates := Candidates(entries, employee);
    if |candidates| == 1 {
      SingletonHasOne(candidates);
      var u :| u in candidates;
      forall v | Serves(entries, employee, v) ensures v == u { assert v in candidates; }
      assert OnlyServes(entries, employee, u);
    } else if |candidates| > 1 {
      var u :| u in candidates;
      assert candidates == candidates - {u} + {u};
      var v :| v in candidates - {u};
      assert Serves(entries, employee, u) && Serves(entries, employee, v);
    }
    if u :| OnlyServes(entries, employee, u) { assert candidates == {u}; }
    forall u | Taken(accounts, u) ensures Owned(accounts, u) {
      var i: nat :| Has(accounts, i, u);
    }
    forall u | Owned(accounts, u) ensures Taken(accounts, u) {
      var i :| 0 <= i < |accounts| && accounts[i].erpUser == Some(u);
      assert Has(accounts, i, u);
    }
  }

  /** An account has at most one diagnosis, and it is the one computed. */
  lemma DiagnosesExactly(entries: Entries, accounts: seq<Account>, i: nat)
    requires i < |accounts|
    ensures forall d: Diagnostic :: Diagnose(entries, accounts, i) == Some(d) <==>
            d.account == i && IsDiagnosis(entries, accounts, d)
  {
    if accounts[i].employee.Some? { CandidatesExactly(entries, accounts, accounts[i].employee.value); }
    forall d: Diagnostic | d.account == i && IsDiagnosis(entries, accounts, d)
        ensures Diagnose(entries, accounts, i) == Some(d) {
      if d.erpUser.None? && d.employee.Some? { assert d.candidates == Candidates(entries, d.employee.value); }
    }
  }

  /** The inspection lists every diagnosis, in the order of the accounts. */
  ghost predicate Inspects(entries: Entries, accounts: seq<Account>, diagnostics: seq<Diagnostic>) {
    && (forall d :: d in diagnostics <==> IsDiagnosis(entries, accounts, d))
    && forall j, k :: 0 <= j < k < |diagnostics| ==> diagnostics[j].account < diagnostics[k].account
  }

  lemma InspectionIsExact(entries: Entries, accounts: seq<Account>)
    ensures Inspects(entries, accounts, DiagnosticsOf(entries, accounts, |accounts|))
  {
    InspectionIsOrdered(entries, accounts);
    DiagnosticsNameAccounts(entries, accounts, |accounts|);
    forall d ensures d in DiagnosticsOf(entries, accounts, |accounts|) <==> IsDiagnosis(entries, accounts, d) {
      if d.account < |accounts| { DiagnosesExactly(entries, accounts, d.account); }
    }
  }

  /** An account that may get an ERP user: the only one of its employee, which no account has. */
  ghost predicate MayGet(entries: Entries, accounts: seq<Account>, i: nat, u: string) {
    && i < |accounts| && accounts[i].external && accounts[i].erpUser.None? && accounts[i].employee.Some?
    && OnlyServes(entries, accounts[i].employee.value, u) && !Taken(accounts, u)
  }

  /** The first account that may get it. */
  ghost predicate Gets(entries: Entries, accounts: seq<Account>, i: nat, u: string) {
    MayGet(entries, accounts, i, u) && forall j: nat :: j < i ==> !MayGet(entries, accounts, j, u)
  }

  /** Of the first n accounts those that get an ERP user have it, and nothing else has changed. */
  ghost predicate GivenUpTo(entries: Entries, accounts: seq<Account>, after: seq<Account>, n: nat) {
    && |after| == |accounts|
    && (forall i: nat, u :: i < n && Gets(entries, accounts, i, u) ==>
         i < |after| && after[i] == accounts[i].(erpUser := Some(u)))
    && (forall i: nat :: i < |accounts| && (i >= n || forall u :: !Gets(entries, accounts, i, u)) ==>
         after[i] == accounts[i])
  }

  ghost predicate ListsThose(entries: Entries, accounts: seq<Account>, recovered: seq<nat>, n: nat) {
    && (forall j, k :: 0 <= j < k < |recovered| ==> recovered[j] < recovered[k])
    && (forall i: nat :: i in recovered <==> i < n && exists u :: Gets(entries, accounts, i, u))
  }

  lemma PendingMayGet(entries: Entries, accounts: seq<Account>, i: nat)
    requires i < |accounts|
    ensures var d := Diagnose(entries, accounts, i);
            d.Some? && d.value.reason == BackfillPending <==> exists u :: MayGet(entries, accounts, i, u)
    ensures forall u, v :: MayGet(entries, accounts, i, u) && MayGet(entries, accounts, i, v) ==> u == v
  {
    if accounts[i].employee.Some? { CandidatesExactly(entries, accounts, accounts[i].employee.value); }
    var d := Diagnose(entries, accounts, i);
    if d.Some? && d.value.reason == BackfillPending {
      DiagnosesExactly(entries, accounts, i);
      assert IsDiagnosis(entries, accounts, d.value);
      var u :| OnlyServes(entries, accounts[i].employee.value, u) && !Taken(accounts, u);
      assert MayGet(entries, accounts, i, u);
    }
    if u :| MayGet(entries, accounts, i, u) {
      assert Candidates(entries, accounts[i].employee.value) == {u};
      assert !Owned(accounts, u);
    }
  }

  lemma {:induction false} SomebodyGets(entries: Entries, accounts: seq<Account>, i: nat, u: string)
    returns (first: nat)
    requires MayGet(entries, accounts, i, u)
    ensures first <= i && Gets(entries, accounts, first, u)
  {
    first := i;
    if j: nat :| j < i && MayGet(entries, accounts, j, u) { first := SomebodyGets(entries, accounts, j, u); }
  }

  /** Who has an ERP user after some accounts got theirs. */
  lemma TakenSince(entries: Entries, accounts: seq<Account>, after: seq<Account>, n: nat, u: string)
    requires GivenUpTo(entries, accounts, after, n)
    ensures Taken(after, u) <==> Taken(accounts, u) || exists i: nat :: i < n && MayGet(entries, accounts, i, u)
  {
    if i: nat :| Has(after, i, u) {
      if !Has(accounts, i, u) { assert exists v :: Gets(entries, accounts, i, v); }
    }
    if i: nat :| Has(accounts, i, u) {
      assert forall v :: !Gets(entries, accounts, i, v);
      assert Has(after, i, u);
    }
    if i: nat :| i < n && MayGet(entries, accounts, i, u) {
      var first := SomebodyGets(entries, accounts, i, u);
      assert Has(after, first, u);
    }
  }

  /** The step of one diagnosed account. */
  lemma RecoverGives(entries: Entries, accounts: seq<Account>, before: seq<Account>, d: Diagnostic)
    requires d.account < |accounts| && Diagnose(entries, accounts, d.account) == Some(d)
    requires GivenUpTo(entries, accounts, before, d.account)
    ensures GivenUpTo(entries, accounts, RecoverOne(entries, before, d), d.account + 1)
    ensures Recoverable(entries, before, d).Some? <==> exists u :: Gets(entries, accounts, d.account, u)
  {
    var i := d.account;
    PendingMayGet(entries, accounts, i);
    if u :| MayGet(entries, accounts, i, u) {
      TakenSince(entries, accounts, before, i, u);
      CandidatesExactly(entries, before, accounts[i].employee.value);
      assert Candidates(entries, accounts[i].employee.value) == {u};
      assert Gets(entries, accounts, i, u) <==> !Taken(before, u);
    }
  }

  lemma Unmoved(entries: Entries, accounts: seq<Account>, after: seq<Account>, n: nat, m: nat)
    requires GivenUpTo(entries, accounts, after, n) && n <= m
    requires forall i: nat, u :: n <= i < m ==> !MayGet(entries, accounts, i, u)
    ensures GivenUpTo(entries, accounts, after, m)
  {
  }

  lemma ListsNext(entries: Entries, accounts: seq<Account>, listed: seq<nat>, i: nat, m: nat, gets: bool)
    requires ListsThose(entries, accounts, listed, i) && i < m && (gets <==> exists u :: Gets(entries, accounts, i, u))
    requires forall j: nat, u :: i < j < m ==> !MayGet(entries, accounts, j, u)
    ensures ListsThose(entries, accounts, listed + (if gets then [i] else []), m)
  {
    var after := listed + (if gets then [i] else []);
    forall j, k | 0 <= j < k < |after| ensures after[j] < after[k] {
      if k == |listed| { assert listed[j] in listed; }
    }
  }

  /** The account of the k-th diagnosis, or past the last one. */
  function NextAccount(accounts: seq<Account>, diagnostics: seq<Diagnostic>, k: nat): nat
    requires k <= |diagnostics|
  {
    if k < |diagnostics| then diagnostics[k].account else |accounts|
  }

  lemma PendingIsListed(entries: Entries, accounts: seq<Account>, diagnostics: seq<Diagnostic>, i: nat, u: string)
    requires diagnostics == DiagnosticsOf(entries, accounts, |accounts|) && MayGet(entries, accounts, i, u)
    ensures exists j :: 0 <= j < |diagnostics| && diagnostics[j].account == i
  {
    DiagnosticsNameAccounts(entries, accounts, |accounts|);
    PendingMayGet(entries, accounts, i);
    var j :| 0 <= j < |diagnostics| && diagnostics[j] == Diagnose(entries, accounts, i).value;
  }

  /** No account between two diagnoses may get anything. */
  lemma NoneBetween(entries: Entries, accounts: seq<Account>, diagnostics: seq<Diagnostic>, k: nat)
    requires diagnostics == DiagnosticsOf(entries, accounts, |accounts|) && k <= |diagnostics|
    requires Inspected(entries, accounts, diagnostics)
    ensures forall i: nat, u ::
              (k > 0 ==> diagnostics[k - 1].account < i) && i < NextAccount(accounts, diagnostics, k)
              ==> !MayGet(entries, accounts, i, u)
  {
    forall i: nat, u | (k > 0 ==> diagnostics[k - 1].account < i) && i < NextAccount(accounts, diagnostics, k)
      ensures !MayGet(entries, accounts, i, u)
    {
      if MayGet(entries, accounts, i, u) { PendingIsListed(entries, accounts, diagnostics, i, u); }
    }
  }

  lemma {:induction false} PassGives(entries: Entries, accounts: seq<Account>, diagnostics: seq<Diagnostic>, k: nat)
    requires diagnostics == DiagnosticsOf(entries, accounts, |accounts|) && k <= |diagnostics|
    requires Inspected(entries, accounts, diagnostics)
    ensures var n := NextAccount(accounts, diagnostics, k);
            && GivenUpTo(entries, accounts, Recovered(entries, accounts, diagnostics, k), n)
            && ListsThose(entries, accounts, RecoveredAccounts(entries, accounts, diagnostics, k), n)
  {
    if k > 0 {
      PassGives(entries, accounts, diagnostics, k - 1);
      var before, d := Recovered(entries, accounts, diagnostics, k - 1), diagnostics[k - 1];
      RecoverGives(entries, accounts, before, d);
      NoneBetween(entries, accounts, diagnostics, k);
      Unmoved(entries, accounts, RecoverOne(entries, before, d), d.account + 1, NextAccount(accounts, diagnostics, k));
      ListsNext(entries, accounts, RecoveredAccounts(entries, accounts, diagnostics, k - 1), d.account,
        NextAccount(accounts, diagnostics, k), Recoverable(entries, before, d).Some?);
    } else {
      NoneBetween(entries, accounts, diagnostics, k);
    }
  }

  /** Recovery gives every account that may get an ERP user its own, unless an account before it gets the same one;
      it changes nothing else, and lists those it changed in their order. */
  lemma RecoversExactly(entries: Entries, accounts: seq<Account>)
    ensures var (after, recovered) := Apply(entries, accounts);
            GivenUpTo(entries, accounts, after, |accounts|) && ListsThose(entries, accounts, recovered, |accounts|)
  {
    var diagnostics := DiagnosticsOf(entries, accounts, |accounts|);
    InspectionIsOrdered(entries, accounts);
    PassGives(entries, accounts, diagnostics, |diagnostics|);
  }

  // ---------------------------------------------------------------- the tool

  class IdentityStore {
    const entries: Entries
    var accounts: seq<Account>

    constructor (entries: Entries, accounts: seq<Account>)
      ensures this.entries == entries && this.accounts == accounts
    {
      this.entries, this.accounts := entries, accounts;
    }

    /** inspect_identity_recovery. */
    method Inspect() returns (diagnostics: seq<Diagnostic>)
      ensures diagnostics == DiagnosticsOf(entries, accounts, |accounts|)
      ensures Inspects(entries, accounts, diagnostics)
    {
      InspectionIsExact(entries, accounts);
      diagnostics := [];
      for i := 0 to |accounts|
        invariant diagnostics == DiagnosticsOf(entries, accounts, i)
      {
        var d := Diagnose(entries, accounts, i);
        if d.Some? { diagnostics := diagnostics + [d.value]; }
      }
    }

    /** apply_deterministic_identity_recovery: the accounts are updated as the diagnostics are processed. */
    method ApplyDeterministic() returns (recovered: seq<nat>)
      modifies this`accounts
      ensures (accounts, recovered) == Apply(entries, old(accounts))
      ensures GivenUpTo(entries, old(accounts), accounts, |old(accounts)|)
      ensures ListsThose(entries, old(accounts), recovered, |old(accounts)|)
    {
      var diagnostics := Inspect();
      DiagnosticsNameAccounts(entries, accounts, |accounts|);
      recovered := [];
      for k := 0 to |diagnostics|
        invariant accounts == Recovered(entries, old(accounts), diagnostics, k)
        invariant recovered == RecoveredAccounts(entries, old(accounts), diagnostics, k)
      {
        var d := diagnostics[k];
        var user := Recoverable(entries, accounts, d);
        if user.Some? {
          accounts := accounts[d.account := accounts[d.account].(erpUser := user)];
          recovered := recovered + [d.account];
        }
      }
      RecoversExactly(entries, old(accounts));
    }

    /** build_report. */
    method BuildReport(recovered: seq<nat>) returns (report: Report)
      ensures report.diagnostics == DiagnosticsOf(entries, accounts, |accounts|) && report.recovered == recovered
      ensures report.unresolved == UnresolvedCount(entries, accounts, |accounts|) &&
              (report.ok <==> report.unresolved == 0)
      ensures Inspects(entries, accounts, report.diagnostics) && report.unresolved == |report.diagnostics|
    {
      var diagnostics := Inspect();
      EveryUnresolvedIsDiagnosed(entries, accounts, |accounts|);
      report := Report(diagnostics == [], |diagnostics|, diagnostics, recovered);
    }
  }
}
