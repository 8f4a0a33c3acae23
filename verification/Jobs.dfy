/** The Ansible job contract: operations, modes, statuses and the job record. */
module Jobs {
  import opened Wrappers

  datatype Operation =
    | DeployAgent | UpdateAgent | UpdatePackages | RepairAgent
    | ConfigureTarget | HealthCheck | CollectPackageInventory

  datatype Mode = Check | Plan | Apply | Reconcile

  datatype Status =
    | Queued | Checking | Planned | Applying
    | ReconcileRequired | Succeeded | Failed | Aborted

  /** The typed variables of each operation. */
  datatype Parameters =
    | DeployAgentParameters(agentVersion: string)
    | UpdateAgentParameters(agentVersion: string)
    | UpdatePackagesParameters(packages: seq<string>)
    | RepairAgentParameters
    | ConfigureTargetParameters(desiredHostname: Option<string>)
    | HealthCheckParameters
    | CollectPackageInventoryParameters

  datatype Target = Host(id: string) | Node(id: string) | Container(number: nat)

  /** A job id is its canonical UUID text. */
  type JobId = string

  datatype Job = Job(
    id: JobId, operation: Operation, target: Target, mode: Mode,
    parameters: Parameters, secretRefs: seq<string>, key: string, status: Status)

  predicate CanTransition(from: Status, to: Status) {
    match from
    case Queued => to in {Checking, Planned, Aborted}
    case Checking => to in {Planned, Failed, Aborted}
    case Planned => to in {Applying, Succeeded, Failed, Aborted}
    case Applying => to in {Succeeded, Failed, ReconcileRequired}
    case ReconcileRequired => to in {Succeeded, Failed}
    case Failed => to == Queued
    case Succeeded => false
    case Aborted => false
  }

  function Advance(job: Job, to: Status): (r: Option<Job>) {
    if CanTransition(job.status, to) then Some(job.(status := to)) else None
  }

  predicate Executing(status: Status) {
    status == Checking || status == Planned || status == Applying
  }

  predicate Terminal(status: Status) {
    status == Succeeded || status == Failed || status == Aborted
  }

  /** Operations whose uncertain Apply can be settled by a read-only run. */
  predicate CanReconcileApply(operation: Operation) {
    operation in {DeployAgent, UpdateAgent, RepairAgent, UpdatePackages}
  }

  predicate CanBeReconciled(job: Job) {
    job.status == ReconcileRequired && job.mode == Apply && CanReconcileApply(job.operation)
  }

  /** The table shared with the frontend in workflow-modes.json. */
  predicate SupportsMode(operation: Operation, mode: Mode) {
    match operation
    case DeployAgent => mode != Reconcile
    case UpdateAgent => mode != Reconcile
    case RepairAgent => mode != Reconcile
    case UpdatePackages => mode == Plan || mode == Apply
    case ConfigureTarget => mode == Check || mode == Apply
    case HealthCheck => mode == Check
    case CollectPackageInventory => mode == Check
  }

  const RECONCILE_KEY_PREFIX := "reconcile-job:"

  function ReconcileKey(source: JobId): (key: string) {
    RECONCILE_KEY_PREFIX + source
  }

  /** The source job named by a reconciliation key. */
  function ReconciliationSource(key: string): (source: Option<JobId>) {
    if RECONCILE_KEY_PREFIX <= key then Some(key[|RECONCILE_KEY_PREFIX|..]) else None
  }

  lemma KeyNamesItsSource(source: JobId, key: string)
    ensures ReconciliationSource(key) == Some(source) <==> key == ReconcileKey(source)
  {
    if RECONCILE_KEY_PREFIX <= key {
      assert key == RECONCILE_KEY_PREFIX + key[|RECONCILE_KEY_PREFIX|..];
    }
  }

  /**
   Each status seen from where it is entered: a job can be aborted until it applies and fails once it was started, it
   succeeds from its plan on, and only an Apply under way becomes unresolved.
   */
  lemma EnteredExactly(from: Status, to: Status)
    ensures CanTransition(from, to) <==>
              match to
              case Queued => from == Failed
              case Checking => from == Queued
              case Planned => from == Queued || from == Checking
              case Applying => from == Planned
              case ReconcileRequired => from == Applying
              case Succeeded => from in {Planned, Applying, ReconcileRequired}
              case Failed => from in {Checking, Planned, Applying, ReconcileRequired}
              case Aborted => from in {Queued, Checking, Planned}
  {
  }

  /** Each mode with the operations that it is offered for. */
  lemma OfferedExactly(operation: Operation, mode: Mode)
    ensures SupportsMode(operation, mode) <==>
              match mode
              case Check => operation != UpdatePackages
              case Plan => CanReconcileApply(operation)
              case Apply => operation != HealthCheck && operation != CollectPackageInventory
              case Reconcile => false
  {
  }
}
