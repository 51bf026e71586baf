/**
  The records shared by the store, the evaluator and the canary scheduler.

  Go strings are `string`, `float64` percentages and weights are `real`, `time.Time` is an `int`
  number of nanoseconds whose zero is the Go zero time, and `uint64` versions are unbounded naturals.
 */
module Domain {

  const DEFAULT_PROJECT := "proj_default"
  const PRODUCTION := "production"
  const ZERO_TIME := 0
  const SECOND := 1_000_000_000

  datatype Option<+T> = None | Some(value: T)

  // A Go string type with four named constants; any other text, the empty one included, is Unknown.
  datatype Strategy = Boolean | Percentage | Rules | Multivariate | Unknown(text: string)

  datatype RuleAction = ForceEnabled | ForceDisabled | ServeVariant | OtherAction(text: string)

  // The dynamically typed payload of a variant.
  datatype Value = Bool(b: bool) | Json(text: string)

  datatype TargetingRule = TargetingRule(
    id: string,
    name: string,
    attribute: string,
    customKey: string,
    operator: string,
    values: seq<string>,
    action: RuleAction,
    serveVariant: string)

  datatype FlagVariant = FlagVariant(key: string, name: string, value: Value, weight: real)

  datatype EnvConfig = EnvConfig(
    enabled: bool,
    strategy: Strategy,
    percentage: real,
    rules: seq<TargetingRule>,
    variants: seq<FlagVariant>,
    defaultVariant: string,
    offVariant: string,
    requiresApproval: bool)

  // The zero value Go reads out of a map when an environment is missing.
  const EMPTY_CONFIG := EnvConfig(false, Unknown(""), 0.0, [], [], "", "", false)

  datatype FeatureFlag = FeatureFlag(
    id: string,
    projectId: string,
    version: nat,
    key: string,
    name: string,
    description: string,
    kind: string,
    tags: seq<string>,
    environments: map<string, EnvConfig>,
    createdAt: int,
    updatedAt: int)

  datatype AuditEntry = AuditEntry(
    id: string,
    projectId: string,
    timestamp: int,
    actor: string,
    action: string,
    flagKey: string,
    environment: string,
    details: string,
    prevHash: string,
    entryHash: string)

  datatype RequestStatus = Pending | Approved | Rejected | Applied

  datatype ChangeRequest = ChangeRequest(
    id: string,
    projectId: string,
    flagKey: string,
    environment: string,
    authorId: string,
    proposed: EnvConfig,
    baseVersion: nat,
    status: RequestStatus,
    reviewerId: string,
    comments: string,
    createdAt: int,
    reviewedAt: Option<int>,
    appliedAt: Option<int>)

  datatype CanaryStatus = Active | Paused | Completed | RolledBack | NeedsAttention

  datatype CanaryStage = CanaryStage(target: real, duration: int, startedAt: int, completedAt: int)

  datatype CanarySchedule = CanarySchedule(
    id: string,
    projectId: string,
    flagKey: string,
    environment: string,
    status: CanaryStatus,
    stageIdx: nat,
    stages: seq<CanaryStage>,
    rollbackReason: string,
    createdAt: int,
    updatedAt: int,
    lastEvaluatedAt: int)

  function ProjectOrDefault(p: string): string {
    if p == "" then DEFAULT_PROJECT else p
  }
}
