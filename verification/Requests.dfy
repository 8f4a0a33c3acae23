/** Validation of a job request before it becomes a queued job. */
module Requests {
  import opened Wrappers
  import opened Jobs
  import opened Text
  import Sorting

  datatype Role = Viewer | Operator | Admin

  datatype Lifecycle = Pending | Discovered | Managed | Broken | Disabled

  datatype Request = Request(
    operation: Operation, target: Target, lifecycle: Lifecycle, mode: Mode, parameters: Parameters,
    secretRefs: seq<string>, key: string, confirmed: bool, role: Role)

  datatype ContractError =
    | Invalid | PermissionDenied | ConfirmationRequired | UnsupportedTarget | UnsupportedMode | MissingSecretReference

  /** Length of the UTF-8 encoding. */
  function Utf8Length(s: string): (n: nat)
    ensures |s| <= n
  {
    if s == [] then 0
    else
      var c := s[0] as int;
      (if c < 0x80 then 1 else if c < 0x800 then 2 else if c < 0x1_0000 then 3 else 4) + Utf8Length(s[1..])
  }

  predicate AllWhite(s: string) {
    Trim(s) == []
  }

  function OperationOf(parameters: Parameters): (operation: Operation) {
    match parameters
    case DeployAgentParameters(_) => DeployAgent
    case UpdateAgentParameters(_) => UpdateAgent
    case UpdatePackagesParameters(_) => UpdatePackages
    case RepairAgentParameters => RepairAgent
    case ConfigureTargetParameters(_) => ConfigureTarget
    case HealthCheckParameters => HealthCheck
    case CollectPackageInventoryParameters => CollectPackageInventory
  }

  predicate ValidParameters(parameters: Parameters) {
    match parameters
    case DeployAgentParameters(version) => !AllWhite(version) && Utf8Length(version) <= 50
    case UpdateAgentParameters(version) => !AllWhite(version) && Utf8Length(version) <= 50
    case UpdatePackagesParameters(packages) =>
      && 0 < |packages| <= 100
      && ("*" in packages ==> packages == ["*"])
      && forall package :: package in packages ==> !AllWhite(package) && |package| <= 100
    case ConfigureTargetParameters(hostname) =>
      hostname.Some? ==> !AllWhite(hostname.value) && |hostname.value| <= 253
    case _ => true
  }

  predicate ReadOnly(operation: Operation) {
    operation == HealthCheck || operation == CollectPackageInventory
  }

  predicate SupportsTarget(operation: Operation, target: Target) {
    target.Node? ==> operation == HealthCheck || operation == ConfigureTarget
  }

  function FromRequest(request: Request, id: JobId): (r: Result<Job, ContractError>) {
    if OperationOf(request.parameters) != request.operation || !ValidParameters(request.parameters) then Err(Invalid)
    else if AllWhite(request.key) || Utf8Length(request.key) > 200 then Err(Invalid)
    else if !SupportsMode(request.operation, request.mode) then Err(UnsupportedMode)
    else if !SupportsTarget(request.operation, request.target) then Err(UnsupportedTarget)
    else if request.role == Viewer && !ReadOnly(request.operation) then Err(PermissionDenied)
    else if request.lifecycle == Disabled && request.operation != HealthCheck then Err(UnsupportedTarget)
    else if request.mode == Apply && !ReadOnly(request.operation) && !request.confirmed then Err(ConfirmationRequired)
    else if request.operation != HealthCheck && request.secretRefs == [] then Err(MissingSecretReference)
    else if !Sorting.Distinct(request.secretRefs) then Err(Invalid)
    else Ok(Job(id, request.operation, request.target, request.mode, request.parameters,
                request.secretRefs, request.key, Queued))
  }

  /** Versions of at most 50 bytes, one to a hundred packages or the one wildcard, host names of at most 253. */
  ghost predicate Sensible(parameters: Parameters) {
    match parameters
    case UpdatePackagesParameters(packages) =>
      && 1 <= |packages| <= 100
      && (forall i :: 0 <= i < |packages| ==> !Blank(packages[i]) && |packages[i]| <= 100)
      && (|packages| > 1 ==> "*" !in packages)
    case DeployAgentParameters(version) => !Blank(version) && Utf8Length(version) <= 50
    case UpdateAgentParameters(version) => !Blank(version) && Utf8Length(version) <= 50
    case ConfigureTargetParameters(Some(hostname)) => !Blank(hostname) && |hostname| <= 253
    case _ => true
  }

  lemma PackagesExactly(packages: seq<string>)
    ensures ValidParameters(UpdatePackagesParameters(packages)) <==> Sensible(UpdatePackagesParameters(packages))
  {
    forall i | 0 <= i < |packages| ensures AllWhite(packages[i]) <==> Blank(packages[i]) {
      TrimBlank(packages[i]);
    }
    if "*" in packages && |packages| == 1 {
      assert packages == ["*"];
    }
  }

  lemma ParametersExactly(parameters: Parameters)
    ensures ValidParameters(parameters) <==> Sensible(parameters)
  {
    match parameters
    case UpdatePackagesParameters(packages) => PackagesExactly(packages);
    case DeployAgentParameters(version) => TrimBlank(version);
    case UpdateAgentParameters(version) => TrimBlank(version);
    case ConfigureTargetParameters(Some(hostname)) => TrimBlank(hostname);
    case _ =>
  }

  /** Everything that is asked of a request. */
  ghost predicate Acceptable(request: Request) {
    && OperationOf(request.parameters) == request.operation && Sensible(request.parameters)
    && !Blank(request.key) && Utf8Length(request.key) <= 200
    && SupportsMode(request.operation, request.mode) && SupportsTarget(request.operation, request.target)
    && (request.role == Viewer ==> ReadOnly(request.operation))
    && (request.lifecycle == Disabled ==> request.operation == HealthCheck)
    && (request.mode == Apply ==> request.confirmed)
    && (request.secretRefs == [] ==> request.operation == HealthCheck)
    && (forall i, j :: 0 <= i < j < |request.secretRefs| ==> request.secretRefs[i] != request.secretRefs[j])
  }

  /** A request is accepted exactly if it meets every demand, and the queued job asks for the same as the request. */
  lemma AcceptedExactly(request: Request, id: JobId)
    ensures FromRequest(request, id).Ok? <==> Acceptable(request)
    ensures FromRequest(request, id).Ok? ==>
              var job := FromRequest(request, id).value;
              && job.id == id && job.status == Queued
              && job.operation == request.operation && job.mode == request.mode && job.target == request.target
              && job.parameters == request.parameters && job.secretRefs == request.secretRefs
              && job.key == request.key
  {
    ParametersExactly(request.parameters);
    TrimBlank(request.key);
  }

  ghost predicate WellFormed(request: Request) {
    && OperationOf(request.parameters) == request.operation && ValidParameters(request.parameters)
    && !Blank(request.key) && Utf8Length(request.key) <= 200
  }

  /** Mode before target before role before confirmation before secrets: the first unmet demand is reported. */
  lemma RefusedExactly(request: Request, id: JobId)
    ensures var r := FromRequest(request, id);
            var possible := WellFormed(request) && SupportsMode(request.operation, request.mode);
            var placed := possible && SupportsTarget(request.operation, request.target);
            var allowed := placed && (request.role == Viewer ==> ReadOnly(request.operation));
            var enabled := allowed && (request.lifecycle == Disabled ==> request.operation == HealthCheck);
            var agreed := enabled && (request.mode == Apply ==> request.confirmed);
            && (r == Err(UnsupportedMode) <==> WellFormed(request) && !possible)
            && (r == Err(UnsupportedTarget) <==> (possible && !placed) || (allowed && !enabled))
            && (r == Err(PermissionDenied) <==> placed && !allowed)
            && (r == Err(ConfirmationRequired) <==> enabled && !agreed)
            && (r == Err(MissingSecretReference) <==>
                  agreed && request.secretRefs == [] && request.operation != HealthCheck)
            && (r == Err(Invalid) <==> !WellFormed(request) || (agreed && !Sorting.Distinct(request.secretRefs)))
  {
    TrimBlank(request.key);
  }

  /** Nothing that changes a machine is accepted without confirmation, an operator, and a secret reference. */
  lemma AcceptedApplyIsConfirmed(request: Request, id: JobId)
    requires FromRequest(request, id).Ok?
    ensures var job := FromRequest(request, id).value;
            && job.status == Queued && job.mode != Reconcile
            && job.target == request.target && job.key == request.key && job.id == id
            && OperationOf(job.parameters) == job.operation && ValidParameters(job.parameters)
            && (job.mode == Apply ==>
                  request.confirmed && request.role != Viewer && job.secretRefs != [] && request.lifecycle != Disabled)
  {
  }
}
