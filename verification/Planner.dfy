/** Building plans from a dry run and revalidating a confirmed plan against a fresh one. */
module Planner {
  import opened Wrappers
  import opened Text
  import opened Plans

  datatype DryRunChange = DryRunChange(
    package: string, from: Option<string>, to: Option<string>, kind: ChangeKind, held: bool, authenticated: bool)

  datatype PlannerInput = PlannerInput(
    container: nat, requested: seq<string>, changes: seq<DryRunChange>, distributionUpgrade: bool)

  datatype PlannerError =
    | EmptyValue(field: string) | InvalidPackageName | InvalidStateTransition
    | HeldPackage(package: string) | UnauthenticatedPackage(package: string)

  datatype Revalidation = Unchanged | Changed

  function PackageName(value: string): (r: Result<string, PlannerError>) {
    if Trim(value) == "" then Err(EmptyValue("package name"))
    else if exists i :: 0 <= i < |value| && IsWhitespace(value[i]) then Err(InvalidPackageName)
    else Ok(value)
  }

  function PackageVersion(value: Option<string>): (r: Result<Option<string>, PlannerError>) {
    if value.Some? && Trim(value.value) == "" then Err(EmptyValue("package version")) else Ok(value)
  }

  function NormalizeChange(change: DryRunChange): (r: Result<Change, PlannerError>) {
    if change.held then Err(HeldPackage(change.package))
    else if !change.authenticated then Err(UnauthenticatedPackage(change.package))
    else
      match PackageName(change.package)
      case Err(e) => Err(e)
      case Ok(package) =>
        match PackageVersion(change.from)
        case Err(e) => Err(e)
        case Ok(from) =>
          match PackageVersion(change.to)
          case Err(e) => Err(e)
          case Ok(to) => Ok(Change(package, from, to, change.kind))
  }

  predicate IsUnsafeChange(change: Change) {
    change.kind == Remove || change.kind == Downgrade
  }

  /** Collects the results in order, or the first error. */
  function Collect<S, T>(xs: seq<S>, f: S -> Result<T, PlannerError>): (r: Result<seq<T>, PlannerError>) {
    if xs == [] then Ok([])
    else
      match f(xs[0])
      case Err(e) => Err(e)
      case Ok(y) =>
        match Collect(xs[1..], f)
        case Err(e) => Err(e)
        case Ok(ys) => Ok([y] + ys)
  }

  function NewPlan(id: string, container: nat, requested: seq<string>, changes: seq<Change>)
    : (r: Result<UpdatePlan, PlannerError>)
  {
    if requested == [] then Err(EmptyValue("requested packages"))
    else Ok(UpdatePlan(id, container, requested, changes, Draft, None))
  }

  /** A new plan, moved to the status that its safety allows and stamped with its hash. */
  function Assemble(digest: Digest, id: string, container: nat, requested: seq<string>, changes: seq<Change>,
      upgrade: bool)
    : (r: Result<UpdatePlan, PlannerError>)
  {
    match NewPlan(id, container, requested, changes)
    case Err(e) => Err(e)
    case Ok(plan) =>
      var blocked := upgrade || exists i :: 0 <= i < |plan.changes| && IsUnsafeChange(plan.changes[i]);
      match MovePlan(plan, if blocked then Blocked else Ready)
      case None => Err(InvalidStateTransition)
      case Some(moved) => Ok(RefreshHash(digest, moved))
  }

  function Build(digest: Digest, input: PlannerInput, id: string): (r: Result<UpdatePlan, PlannerError>) {
    match Collect(input.requested, PackageName)
    case Err(e) => Err(e)
    case Ok(requested) =>
      match Collect(input.changes, NormalizeChange)
      case Err(e) => Err(e)
      case Ok(changes) => Assemble(digest, id, input.container, requested, changes, input.distributionUpgrade)
  }

  /** The plan after the call, and the answer. */
  function Revalidate(digest: Digest, plan: UpdatePlan, current: PlannerInput, id: string)
    : (r: (UpdatePlan, Result<Revalidation, PlannerError>))
  {
    match Build(digest, current, id)
    case Err(e) => (plan, Err(e))
    case Ok(rebuilt) =>
      if HasSameContent(digest, plan, rebuilt) then (plan, Ok(Unchanged))
      else
        match MovePlan(plan, Invalidated)
        case None => (plan, Err(InvalidStateTransition))
        case Some(moved) => (moved, Ok(Changed))
  }

  // ---- what a successful build means ----

  lemma {:induction false} CollectExactly<S, T>(xs: seq<S>, f: S -> Result<T, PlannerError>)
    ensures Collect(xs, f).Ok? <==> forall i :: 0 <= i < |xs| ==> f(xs[i]).Ok?
    ensures Collect(xs, f).Ok? ==>
              |Collect(xs, f).value| == |xs| && forall i :: 0 <= i < |xs| ==> f(xs[i]) == Ok(Collect(xs, f).value[i])
  {
    if xs != [] {
      CollectExactly(xs[1..], f);
    }
  }

  /** The error reported is that of the first element that fails. */
  lemma {:induction false} CollectFirstError<S, T>(xs: seq<S>, f: S -> Result<T, PlannerError>, k: nat)
    requires k < |xs| && f(xs[k]).Err? && forall i :: 0 <= i < k ==> f(xs[i]).Ok?
    ensures Collect(xs, f) == Err(f(xs[k]).error)
  {
    if k > 0 {
      CollectFirstError(xs[1..], f, k - 1);
    }
  }

  /** A name with at least one character and no white space. */
  ghost predicate ValidName(s: string) {
    s != "" && forall i :: 0 <= i < |s| ==> !IsWhitespace(s[i])
  }

  lemma NameExactly(s: string)
    ensures PackageName(s).Ok? <==> ValidName(s)
    ensures PackageName(s).Ok? ==> PackageName(s).value == s
  {
    TrimBlank(s);
    if s != "" && Blank(s) {
      assert IsWhitespace(s[0]);
    }
  }

  ghost predicate ValidVersion(v: Option<string>) {
    v.Some? ==> !Blank(v.value)
  }

  /** A dry-run change that may be planned. */
  ghost predicate Plannable(change: DryRunChange) {
    && !change.held && change.authenticated
    && ValidName(change.package) && ValidVersion(change.from) && ValidVersion(change.to)
  }

  function Projected(change: DryRunChange): (r: Change) {
    Change(change.package, change.from, change.to, change.kind)
  }

  lemma NormalizeExactly(change: DryRunChange)
    ensures NormalizeChange(change).Ok? <==> Plannable(change)
    ensures NormalizeChange(change).Ok? ==> NormalizeChange(change).value == Projected(change)
  {
    NameExactly(change.package);
    if change.from.Some? { TrimBlank(change.from.value); }
    if change.to.Some? { TrimBlank(change.to.value); }
  }

  function Resolved(changes: seq<DryRunChange>): (r: seq<Change>)
    ensures |r| == |changes|
  {
    seq(|changes|, i requires 0 <= i < |changes| => Projected(changes[i]))
  }

  ghost predicate Acceptable(input: PlannerInput) {
    && input.requested != []
    && (forall i :: 0 <= i < |input.requested| ==> ValidName(input.requested[i]))
    && (forall i :: 0 <= i < |input.changes| ==> Plannable(input.changes[i]))
  }

  ghost predicate Unsafe(input: PlannerInput) {
    input.distributionUpgrade ||
    exists i :: 0 <= i < |input.changes| && (input.changes[i].kind == Remove || input.changes[i].kind == Downgrade)
  }

  lemma RequestedExactly(requested: seq<string>)
    ensures Collect(requested, PackageName).Ok? <==> forall i :: 0 <= i < |requested| ==> ValidName(requested[i])
    ensures Collect(requested, PackageName).Ok? ==> Collect(requested, PackageName).value == requested
  {
    CollectExactly(requested, PackageName);
    forall i | 0 <= i < |requested|
      ensures PackageName(requested[i]).Ok? <==> ValidName(requested[i])
      ensures PackageName(requested[i]).Ok? ==> PackageName(requested[i]).value == requested[i]
    {
      NameExactly(requested[i]);
    }
  }

  lemma ChangesExactly(changes: seq<DryRunChange>)
    ensures Collect(changes, NormalizeChange).Ok? <==> forall i :: 0 <= i < |changes| ==> Plannable(changes[i])
    ensures Collect(changes, NormalizeChange).Ok? ==> Collect(changes, NormalizeChange).value == Resolved(changes)
  {
    CollectExactly(changes, NormalizeChange);
    forall i | 0 <= i < |changes|
      ensures NormalizeChange(changes[i]).Ok? <==> Plannable(changes[i])
      ensures NormalizeChange(changes[i]).Ok? ==> NormalizeChange(changes[i]).value == Projected(changes[i])
    {
      NormalizeExactly(changes[i]);
    }
  }

  lemma UnsafeIsUnsafe(input: PlannerInput)
    ensures var changes := Resolved(input.changes);
            Unsafe(input) <==> input.distributionUpgrade || exists i :: 0 <= i < |changes| && IsUnsafeChange(changes[i])
  {
    var changes := Resolved(input.changes);
    assert forall i :: 0 <= i < |changes| ==> changes[i] == Projected(input.changes[i]);
    if i :| 0 <= i < |input.changes| && (input.changes[i].kind == Remove || input.changes[i].kind == Downgrade) {
      assert IsUnsafeChange(changes[i]);
    }
  }

  /** The plan that input deserves: Blocked if it is unsafe, else Ready, and always with its own hash. */
  ghost predicate Deserved(digest: Digest, input: PlannerInput, id: string, plan: UpdatePlan) {
    && plan.id == id && plan.container == input.container
    && plan.requested == input.requested && plan.changes == Resolved(input.changes)
    && plan.status == (if Unsafe(input) then Blocked else Ready)
    && plan.hash == Some(CalculateHash(digest, plan))
  }

  lemma AssembleExactly(digest: Digest, input: PlannerInput, id: string)
    ensures var changes := Resolved(input.changes);
            var r := Assemble(digest, id, input.container, input.requested, changes, input.distributionUpgrade);
            && (r.Ok? <==> input.requested != [])
            && (r.Ok? ==> Deserved(digest, input, id, r.value))
  {
    UnsafeIsUnsafe(input);
  }

  /** A plan is built exactly from acceptable input; it is Blocked exactly when the input is unsafe. */
  lemma BuildExactly(digest: Digest, input: PlannerInput, id: string)
    ensures var r := Build(digest, input, id);
            && (r.Ok? <==> Acceptable(input))
            && (r.Ok? ==> Deserved(digest, input, id, r.value))
  {
    RequestedExactly(input.requested);
    ChangesExactly(input.changes);
    AssembleExactly(digest, input, id);
  }

  /** The dry run is acceptable and resolves to the same content as the plan. */
  ghost predicate Reproduces(plan: UpdatePlan, current: PlannerInput) {
    && Acceptable(current)
    && plan.container == current.container
    && multiset(plan.requested) == multiset(current.requested)
    && multiset(plan.changes) == multiset(Resolved(current.changes))
  }

  /** A plan survives revalidation exactly when an acceptable fresh dry run reproduces its content. */
  lemma RevalidateExactly(digest: Digest, plan: UpdatePlan, current: PlannerInput, id: string)
    requires Injective(digest)
    ensures var r := Revalidate(digest, plan, current, id);
            && (r.1 == Ok(Unchanged) <==> Reproduces(plan, current))
            && (r.1 == Ok(Changed) <==> Acceptable(current) && !Reproduces(plan, current) && plan.status != Invalidated)
            && r.0 == (if r.1 == Ok(Changed) then plan.(status := Invalidated) else plan)
  {
    BuildExactly(digest, current, id);
    if Acceptable(current) {
      SameContentExactly(digest, plan, Build(digest, current, id).value);
    }
  }

  // ---- which error is reported ----

  lemma NameFault(s: string)
    requires !ValidName(s)
    ensures PackageName(s) == Err(if Blank(s) then EmptyValue("package name") else InvalidPackageName)
  {
    TrimBlank(s);
  }

  lemma VersionFault(v: Option<string>)
    ensures PackageVersion(v) == if ValidVersion(v) then Ok(v) else Err(EmptyValue("package version"))
  {
    if v.Some? { TrimBlank(v.value); }
  }

  /** A hold is reported first, then a missing signature, then the name, then the versions. */
  lemma ChangeFaults(change: DryRunChange)
    ensures var r := NormalizeChange(change);
            var trusted := !change.held && change.authenticated;
            && (r == Err(HeldPackage(change.package)) <==> change.held)
            && (r == Err(UnauthenticatedPackage(change.package)) <==> !change.held && !change.authenticated)
            && (r == Err(EmptyValue("package name")) <==> trusted && Blank(change.package))
            && (r == Err(InvalidPackageName) <==> trusted && !Blank(change.package) && !ValidName(change.package))
            && (r == Err(EmptyValue("package version")) <==>
                  trusted && ValidName(change.package) && !(ValidVersion(change.from) && ValidVersion(change.to)))
  {
    VersionFault(change.from);
    VersionFault(change.to);
    NameExactly(change.package);
    if !ValidName(change.package) {
      NameFault(change.package);
    } else {
      assert !Blank(change.package) by { assert !IsWhitespace(change.package[0]); }
    }
    DifferentFields();
  }

  lemma DifferentFields()
    ensures "package name" != "package version"
  {
    assert |"package name"| == 12;
  }

  /** The first bad name decides before any change is looked at. */
  lemma BadNameFails(digest: Digest, input: PlannerInput, id: string, k: nat)
    requires k < |input.requested| && !ValidName(input.requested[k])
    requires forall i :: 0 <= i < k ==> ValidName(input.requested[i])
    ensures Build(digest, input, id) ==
              Err(if Blank(input.requested[k]) then EmptyValue("package name") else InvalidPackageName)
  {
    forall i | 0 <= i < k ensures PackageName(input.requested[i]).Ok? {
      NameExactly(input.requested[i]);
    }
    NameFault(input.requested[k]);
    CollectFirstError(input.requested, PackageName, k);
  }

  /** Then the first change that may not be planned decides. */
  lemma BadChangeFails(digest: Digest, input: PlannerInput, id: string, k: nat)
    requires forall i :: 0 <= i < |input.requested| ==> ValidName(input.requested[i])
    requires k < |input.changes| && !Plannable(input.changes[k])
    requires forall i :: 0 <= i < k ==> Plannable(input.changes[i])
    ensures NormalizeChange(input.changes[k]).Err?
    ensures Build(digest, input, id) == Err(NormalizeChange(input.changes[k]).error)
  {
    RequestedExactly(input.requested);
    forall i | 0 <= i <= k ensures NormalizeChange(input.changes[i]).Ok? <==> Plannable(input.changes[i]) {
      NormalizeExactly(input.changes[i]);
    }
    CollectFirstError(input.changes, NormalizeChange, k);
  }

  /** A dry run without a requested package is refused last. */
  lemma NothingRequestedFails(digest: Digest, input: PlannerInput, id: string)
    requires input.requested == [] && forall i :: 0 <= i < |input.changes| ==> Plannable(input.changes[i])
    ensures Build(digest, input, id) == Err(EmptyValue("requested packages"))
  {
    ChangesExactly(input.changes);
  }
}
