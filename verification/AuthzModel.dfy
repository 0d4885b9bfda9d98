/** The closed facts of one authorization decision (crates/zk-authz/src/model.rs). */
module AuthzModel {
  import opened Wrappers

  datatype RiskClass = Safe | Guarded | High

  datatype EffectClass =
    SafeInternal | ReadResource | WriteResource | Process | Network | ControlPlane | Unknown

  datatype GrantKind = ExactGuarded | ToolGuarded | ReadCapability | EditCapability

  datatype DelegationPolicy = DirectOnly | RootAndDescendants

  datatype TypedFileOperation =
    ReadFile | ListDirectory | CreateFile | PatchFile | ReplaceFile | DeleteFile

  datatype PermissionScope = Once | RunScope | SessionScope | WorkspaceScope

  datatype PermissionMode = DefaultMode | PlanMode | AcceptEdits | DontAsk | AutoApprove

  /** The analyzer identities that a descriptor can carry. */
  datatype AnalyzerId =
    HookV1 | BashV2 | FileV1 | NetworkV1 | ArtifactPublishV1 | McpV1 | StaticOrRemoteV1

  /** An action is one of the six typed file operations or another tool's own verb. */
  datatype Action = FileAction(operation: TypedFileOperation) | OtherAction(verb: string)

  /** A lexically normalized absolute path: the names below the root, in order. */
  type Path = seq<string>

  datatype ResourceRef = ResourceRef(kind: string, value: string, outsideWorkspace: bool)

  const PATH_KIND := "path"

  datatype OperationDescriptor = OperationDescriptor(
    schemaVersion: int,
    toolName: string,
    action: Action,
    inputHash: string,
    analyzer: AnalyzerId,
    effects: seq<EffectClass>,
    resources: seq<ResourceRef>,
    environment: seq<string>,
    endpoints: seq<string>,
    risk: RiskClass,
    operationHash: string)

  datatype AuthorizationSubject = AuthorizationSubject(
    rootSession: string,
    rootRun: string,
    currentRun: string,
    workspaceKey: string,
    authorizationRoot: Path)

  datatype DiagnosticSource = Invariant | Policy | Grant | UserOnce | Mode

  datatype ReasonCode =
    | BUILTIN_SAFE
    | AUTO_APPROVE
    | GRANT_MATCH
    | SYSTEM_SCRATCHPAD_SCOPE
    | PRIVATE_TMP_FILE_SCOPE
    | SAFE_READ_AUTO
    | PROJECT_FILE_SCOPE
    | ACCEPT_EDITS
    | USER_REMEMBERED_GRANT
    | USER_APPROVED_ONCE

  /** What the execution gateway is handed: the decision together with what justified it. */
  datatype AuthorizedOperation = AuthorizedOperation(
    subject: AuthorizationSubject,
    descriptor: OperationDescriptor,
    source: DiagnosticSource,
    reason: ReasonCode,
    grantId: Option<string>,
    grantScope: Option<PermissionScope>,
    interactionId: Option<string>)
}
