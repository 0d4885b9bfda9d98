/**
 The permission grant table (crates/zk-authz/src/grants.rs): what may be remembered,
 how a row is created or reused, and which row answers a lookup.
 */
module Grants {
  import opened Wrappers
  import opened AuthzModel
  import opened Ordering
  import opened Constraints

  datatype RunStatus =
    | Running | WaitingInteraction | WaitingDependencies
    | Completed | Failed | Cancelled | Aborted | Interrupted | OtherStatus

  /** SHA-256 of kind, constraint text and schema version, taken to be injective. */
  datatype CapabilityHash = CapabilityHash(kind: GrantKind, constraints: Json, schemaVersion: int)

  /** One row. An unreadable grant_kind text is None; times are milliseconds. */
  datatype GrantRow = GrantRow(
    id: string,
    kind: Option<GrantKind>,
    scope: PermissionScope,
    delegation: DelegationPolicy,
    rootSession: Option<string>,
    rootRun: Option<string>,
    actorRun: Option<string>,
    workspaceKey: Option<string>,
    schemaVersion: int,
    analyzer: AnalyzerId,
    toolName: string,
    action: Action,
    effects: seq<EffectClass>,
    operationHash: Option<string>,
    capabilityHash: Option<CapabilityHash>,
    constraints: Json,
    risk: RiskClass,
    createdBy: Option<string>,
    createdAt: int,
    expiresAt: int,
    revokedAt: Option<int>,
    version: int)

  datatype GrantPlan = GrantPlan(
    kind: GrantKind, scope: PermissionScope, delegation: DelegationPolicy, constraint: GrantConstraint)

  datatype GrantMatch = GrantMatch(grantId: string, kind: GrantKind, scope: PermissionScope)

  // ---------- what may be remembered ----------

  predicate ToolWideAnalyzer(a: AnalyzerId) { a == BashV2 || a == NetworkV1 || a == McpV1 }

  function SupportedScopes(op: OperationDescriptor): seq<PermissionScope> {
    if op.risk == High then []
    else if op.analyzer == HookV1 || ToolWideAnalyzer(op.analyzer) then [RunScope, SessionScope]
    else if op.analyzer != FileV1 then []
    else if CapabilityConstraint(op).None? then [RunScope, SessionScope]
    else [RunScope, SessionScope, WorkspaceScope]
  }

  function DelegationFor(scope: PermissionScope): DelegationPolicy {
    if scope == RunScope then DirectOnly else RootAndDescendants
  }

  function Plan(op: OperationDescriptor, requested: Option<PermissionScope>): Option<GrantPlan> {
    if requested.None? || requested.value == Once || op.risk == High then None
    else
      var scope := requested.value;
      var exact := Some(GrantPlan(ExactGuarded, scope, DelegationFor(scope), Exact(op.operationHash)));
      if op.analyzer == HookV1 then
        if scope != RunScope && scope != SessionScope then None else exact
      else if ToolWideAnalyzer(op.analyzer) then
        if scope == WorkspaceScope then None
        else if op.risk != Guarded && op.risk != Safe then None
        else Some(GrantPlan(ToolGuarded, scope, DelegationFor(scope), ToolWide))
      else if op.analyzer == FileV1 then
        if scope == RunScope then exact
        else match CapabilityConstraint(op)
          case None => if scope != SessionScope then None else exact
          case Some(c) =>
            Some(GrantPlan(if c.WorkspaceEdit? then EditCapability else ReadCapability, scope, RootAndDescendants, c))
      else None
  }

  /** The prompt offers a scope exactly when the store would accept it. */
  lemma OfferedIffPlanned(op: OperationDescriptor, scope: PermissionScope)
    ensures scope in SupportedScopes(op) <==> Plan(op, Some(scope)).Some?
  {
  }

  /** Every resource of a file operation is a path. */
  predicate PathOperation(op: OperationDescriptor) {
    op.analyzer != FileV1 || forall i :: 0 <= i < |op.resources| ==> op.resources[i].kind == PATH_KIND
  }

  /** What a plan is, whatever the operation: its kind, delegation and shape follow the scope. */
  lemma PlanShape(op: OperationDescriptor, requested: Option<PermissionScope>)
    requires Plan(op, requested).Some?
    ensures var p := Plan(op, requested).value;
      && op.risk != High
      && requested == Some(p.scope) && p.scope != Once
      && p.delegation == DelegationFor(p.scope)
      && WellFormed(p.constraint) && KindOf(p.constraint) == p.kind
      && (p.scope == WorkspaceScope ==>
            op.analyzer == FileV1 && p.kind in {ReadCapability, EditCapability} && !AnyOutside(op.resources))
      && (PathOperation(op) ==> Matches(p.constraint, op))
  {
    if CapabilityConstraint(op).Some? { CapabilityCoversItsOperation(op); }
  }

  /** A file operation that a directory capability can stand for. */
  predicate Capable(op: OperationDescriptor) { op.analyzer == FileV1 && CapabilityConstraint(op).Some? }

  /**
   What is offered: nothing for HIGH; run and session for hooks, tool-wide analyzers and files; the
   workspace for capable files only.
   */
  lemma OfferedExactly(op: OperationDescriptor, scope: PermissionScope)
    ensures scope in SupportedScopes(op) <==>
              && op.risk != High
              && (scope in {RunScope, SessionScope} || (scope == WorkspaceScope && Capable(op)))
              && op.analyzer in {HookV1, BashV2, NetworkV1, McpV1, FileV1}
  {
  }

  /** What is remembered: the whole tool, the capability, or exactly this operation. */
  lemma PlanRemembersExactly(op: OperationDescriptor, scope: PermissionScope)
    requires scope in SupportedScopes(op)
    ensures var c := Plan(op, Some(scope)).value.constraint;
      && (op.analyzer in {BashV2, NetworkV1, McpV1} ==> c == ToolWide)
      && (op.analyzer == HookV1 || (op.analyzer == FileV1 && (scope == RunScope || !Capable(op))) ==>
            c == Exact(op.operationHash))
      && (Capable(op) && scope != RunScope ==> c == CapabilityConstraint(op).value)
  {
  }

  // ---------- lookup ----------

  type RunTable = map<string, RunStatus>

  /** A missing run counts as terminal. */
  predicate RootRunIsTerminal(runs: RunTable, run: string) {
    run !in runs || runs[run] in {Completed, Failed, Cancelled, Aborted}
  }

  datatype Query = Query(
    now: int, subject: AuthorizationSubject, op: OperationDescriptor, runs: RunTable, printed: Json -> string)

  predicate InScope(row: GrantRow, s: AuthorizationSubject) {
    || (&& row.scope == RunScope && row.rootRun == Some(s.rootRun)
        && (row.delegation == RootAndDescendants || row.actorRun == Some(s.currentRun)))
    || (row.scope == SessionScope && row.rootSession == Some(s.rootSession) && row.delegation == RootAndDescendants)
    || (row.scope == WorkspaceScope && row.workspaceKey == Some(s.workspaceKey) && row.delegation == RootAndDescendants)
  }

  predicate Live(row: GrantRow, now: int) { row.revokedAt.None? && row.expiresAt > now }

  /** The rows the query selects, before their constraints are looked at. */
  predicate Selected(row: GrantRow, q: Query) {
    && row.toolName == q.op.toolName && row.action == q.op.action && row.analyzer == q.op.analyzer
    && row.schemaVersion == q.op.schemaVersion
    && Live(row, q.now) && InScope(row, q.subject)
  }

  /** A selected row that really authorizes the operation. */
  predicate Usable(row: GrantRow, q: Query) {
    && !(row.scope == RunScope && RootRunIsTerminal(q.runs, q.subject.rootRun))
    && row.kind.Some?
    && Decode(row.kind.value, row.constraints, q.printed).Some?
    && Matches(Decode(row.kind.value, row.constraints, q.printed).value, q.op)
  }

  predicate Eligible(row: GrantRow, q: Query) { Selected(row, q) && Usable(row, q) }

  function ScopeRank(scope: PermissionScope): int {
    match scope case RunScope => 1 case SessionScope => 2 case _ => 3
  }

  /** Narrower scope first, then newer; the table's own row order settles what remains. */
  predicate Before(rows: seq<GrantRow>, i: nat, j: nat)
    requires i < |rows| && j < |rows|
  {
    var a, b := rows[i], rows[j];
    || ScopeRank(a.scope) < ScopeRank(b.scope)
    || (ScopeRank(a.scope) == ScopeRank(b.scope)
        && (a.createdAt > b.createdAt || (a.createdAt == b.createdAt && i < j)))
  }

  /** The best eligible row among the first n. */
  function BestIndex(rows: seq<GrantRow>, n: nat, q: Query): (r: Option<nat>)
    requires n <= |rows|
    ensures r.Some? ==> r.value < n && Eligible(rows[r.value], q)
    ensures r.None? ==> forall i :: 0 <= i < n ==> !Eligible(rows[i], q)
    ensures r.Some? ==> forall i :: 0 <= i < n && i != r.value && Eligible(rows[i], q) ==> Before(rows, r.value, i)
  {
    if n == 0 then None
    else
      var best := BestIndex(rows, n - 1, q);
      if Eligible(rows[n - 1], q) && (best.None? || Before(rows, n - 1, best.value)) then Some(n - 1) else best
  }

  function MatchOf(row: GrantRow): GrantMatch
    requires row.kind.Some?
  {
    GrantMatch(row.id, row.kind.value, row.scope)
  }

  function FindMatch(rows: seq<GrantRow>, q: Query): Option<GrantMatch> {
    match BestIndex(rows, |rows|, q)
    case None => None
    case Some(i) => Some(MatchOf(rows[i]))
  }

  /** A lookup answers with the narrowest, newest eligible row, and with none only if there is none. */
  lemma FindMatchIsLeastRankNewest(rows: seq<GrantRow>, q: Query)
    ensures FindMatch(rows, q).None? <==> forall i :: 0 <= i < |rows| ==> !Eligible(rows[i], q)
    ensures FindMatch(rows, q).Some? ==> exists i ::
      && 0 <= i < |rows| && Eligible(rows[i], q) && FindMatch(rows, q) == Some(MatchOf(rows[i]))
      && forall j :: 0 <= j < |rows| && Eligible(rows[j], q) ==>
           ScopeRank(rows[i].scope) < ScopeRank(rows[j].scope)
           || (rows[i].scope == rows[j].scope && rows[i].createdAt >= rows[j].createdAt)
  {
    var best := BestIndex(rows, |rows|, q);
    if best.Some? {
      var i := best.value;
      forall j | 0 <= j < |rows| && Eligible(rows[j], q)
        ensures ScopeRank(rows[i].scope) < ScopeRank(rows[j].scope)
             || (rows[i].scope == rows[j].scope && rows[i].createdAt >= rows[j].createdAt)
      {
        assert j == i || Before(rows, i, j);
      }
    }
  }

  /** A run's own grant answers first, then a session's; the workspace's only where neither is eligible. */
  lemma NarrowestScopeAnswers(rows: seq<GrantRow>, q: Query, i: nat)
    requires i < |rows| && Eligible(rows[i], q)
    ensures FindMatch(rows, q).Some?
    ensures rows[i].scope == RunScope ==> FindMatch(rows, q).value.scope == RunScope
    ensures rows[i].scope == SessionScope ==> FindMatch(rows, q).value.scope in {RunScope, SessionScope}
  {
    FindMatchIsLeastRankNewest(rows, q);
  }

  /** While its row stays live, an answered lookup keeps its answer: other rows only drop out. */
  lemma FindMatchStable(rows: seq<GrantRow>, q: Query, later: int)
    requires q.now <= later
    requires BestIndex(rows, |rows|, q).Some?
    requires Live(rows[BestIndex(rows, |rows|, q).value], later)
    ensures FindMatch(rows, q.(now := later)) == FindMatch(rows, q)
  {
    var q' := q.(now := later);
    var i := BestIndex(rows, |rows|, q).value;
    assert Eligible(rows[i], q');
    var j := BestIndex(rows, |rows|, q').value;
    assert Eligible(rows[j], q);
    assert i != j ==> Before(rows, i, j);
    assert i == j;
  }

  // ---------- creation ----------

  const HALF_DAY := 12 * 3_600_000
  const THIRTY_DAYS := 30 * 86_400_000

  function Coalesce(o: Option<string>): string { match o case None => "" case Some(s) => s }

  /** What the partial unique index compares among unrevoked rows. */
  datatype IdentityKey = IdentityKey(
    kind: Option<GrantKind>, scope: PermissionScope, delegation: DelegationPolicy,
    rootSession: string, rootRun: string, actorRun: string, workspaceKey: string,
    schemaVersion: int, analyzer: AnalyzerId, toolName: string, action: Action,
    operationHash: string, capabilityHash: Option<CapabilityHash>)

  function KeyOf(row: GrantRow): IdentityKey {
    IdentityKey(row.kind, row.scope, row.delegation, Coalesce(row.rootSession), Coalesce(row.rootRun),
                Coalesce(row.actorRun), Coalesce(row.workspaceKey), row.schemaVersion, row.analyzer,
                row.toolName, row.action, Coalesce(row.operationHash), row.capabilityHash)
  }

  datatype CreateRequest = CreateRequest(
    now: int, subject: AuthorizationSubject, op: OperationDescriptor,
    scope: Option<PermissionScope>, interaction: Option<string>, freshId: string)

  /** The row a plan asks for: exactly one identity column group is filled per scope. */
  function RowFor(req: CreateRequest, plan: GrantPlan): GrantRow {
    var s, op := req.subject, req.op;
    var json := Encode(plan.constraint);
    var exactKind := plan.kind == ExactGuarded || plan.kind == ToolGuarded;
    GrantRow(
      req.freshId, Some(plan.kind), plan.scope, plan.delegation,
      if plan.scope == SessionScope then Some(s.rootSession) else None,
      if plan.scope == RunScope then Some(s.rootRun) else None,
      if plan.scope == RunScope && plan.delegation == DirectOnly then Some(s.currentRun) else None,
      if plan.scope == WorkspaceScope then Some(s.workspaceKey) else None,
      op.schemaVersion, op.analyzer, op.toolName, op.action, op.effects,
      if exactKind then Some(op.operationHash) else None,
      if exactKind then None else Some(CapabilityHash(plan.kind, json, op.schemaVersion)),
      json, op.risk, req.interaction, req.now,
      req.now + (if plan.scope == WorkspaceScope then THIRTY_DAYS else HALF_DAY),
      None, 0)
  }

  function Revoked(row: GrantRow, now: int): GrantRow { row.(revokedAt := Some(now), version := row.version + 1) }

  function ExpireRow(row: GrantRow, now: int): GrantRow {
    if row.revokedAt.None? && row.expiresAt <= now then Revoked(row, now) else row
  }

  function Expire(rows: seq<GrantRow>, now: int): seq<GrantRow> {
    seq(|rows|, i requires 0 <= i < |rows| => ExpireRow(rows[i], now))
  }

  predicate Conflicts(row: GrantRow, candidate: GrantRow) {
    row.id == candidate.id || (row.revokedAt.None? && KeyOf(row) == KeyOf(candidate))
  }

  datatype CreateError = SessionNotPersistent | IdentityConflict

  /** Indices of the unrevoked rows carrying exactly this identity. */
  function ExactIdentity(rows: seq<GrantRow>, key: IdentityKey, n: nat): (r: seq<nat>)
    requires n <= |rows|
    ensures forall k :: 0 <= k < |r| ==> r[k] < n && rows[r[k]].revokedAt.None? && KeyOf(rows[r[k]]) == key
    ensures forall i :: 0 <= i < n && rows[i].revokedAt.None? && KeyOf(rows[i]) == key ==> i in r
    ensures |r| > 1 ==> r[0] < r[1]
  {
    if n == 0 then []
    else
      var rest := ExactIdentity(rows, key, n - 1);
      if rows[n - 1].revokedAt.None? && KeyOf(rows[n - 1]) == key then rest + [n - 1] else rest
  }

  datatype Created = Created(rows: seq<GrantRow>, outcome: Result<Option<string>, CreateError>)

  /** The table and answer after one creation; a refused creation leaves the table as it was. */
  function CreateGrant(rows: seq<GrantRow>, persistent: set<string>, req: CreateRequest): Created {
    if req.subject.rootSession !in persistent then Created(rows, Err(SessionNotPersistent))
    else match Plan(req.op, req.scope)
      case None => Created(rows, Ok(None))
      case Some(plan) =>
        var live := Expire(rows, req.now);
        var row := RowFor(req, plan);
        if forall i :: 0 <= i < |live| ==> !Conflicts(live[i], row) then Created(live + [row], Ok(Some(row.id)))
        else
          var existing := ExactIdentity(live, KeyOf(row), |live|);
          if |existing| != 1 then Created(rows, Err(IdentityConflict))
          else Created(live, Ok(Some(live[existing[0]].id)))
  }

  // ---------- the table over any history ----------

  datatype GrantStep =
    | CreateStep(req: CreateRequest)
    | RevokeStep(now: int, id: string)
    | RevokeForSessionStep(now: int, id: string, session: string, workspace: string)
    | RevokeRunScopedStep(now: int, run: string)

  predicate Revokes(step: GrantStep, row: GrantRow) {
    && row.revokedAt.None?
    && match step
       case CreateStep(_) => false
       case RevokeStep(_, id) => row.id == id
       case RevokeForSessionStep(_, id, session, workspace) =>
         row.id == id && (row.rootSession == Some(session) || row.workspaceKey == Some(workspace))
       case RevokeRunScopedStep(_, run) => row.scope == RunScope && row.rootRun == Some(run)
  }

  function GrantNext(rows: seq<GrantRow>, persistent: set<string>, step: GrantStep): seq<GrantRow> {
    if step.CreateStep? then CreateGrant(rows, persistent, step.req).rows
    else seq(|rows|, i requires 0 <= i < |rows| =>
               if Revokes(step, rows[i]) then Revoked(rows[i], step.now) else rows[i])
  }

  function RevokeCount(rows: seq<GrantRow>, step: GrantStep, n: nat): nat
    requires n <= |rows|
  {
    if n == 0 then 0 else RevokeCount(rows, step, n - 1) + if Revokes(step, rows[n - 1]) then 1 else 0
  }

  /** The rows that a step revokes among the first n. */
  function RevokedAmong(rows: seq<GrantRow>, step: GrantStep, n: nat): set<nat>
    requires n <= |rows|
  {
    set i: nat | i < n && Revokes(step, rows[i])
  }

  lemma OneMoreRow(rows: seq<GrantRow>, step: GrantStep, n: nat)
    requires n < |rows|
    ensures |RevokedAmong(rows, step, n + 1)| ==
            |RevokedAmong(rows, step, n)| + if Revokes(step, rows[n]) then 1 else 0
  {
    AddIf(RevokedAmong(rows, step, n), RevokedAmong(rows, step, n + 1), n, Revokes(step, rows[n]));
  }

  lemma AddIf(before: set<nat>, after: set<nat>, n: nat, added: bool)
    requires n !in before && forall i: nat :: i in after <==> i in before || (i == n && added)
    ensures |after| == |before| + if added then 1 else 0
  {
    if added { assert after == before + {n}; } else { assert after == before; }
  }

  /** Each revoked row is counted once. */
  lemma {:induction false} RevokeCountExactly(rows: seq<GrantRow>, step: GrantStep, n: nat)
    requires n <= |rows|
    ensures RevokeCount(rows, step, n) == |RevokedAmong(rows, step, n)|
  {
    if n > 0 {
      RevokeCountExactly(rows, step, n - 1);
      OneMoreRow(rows, step, n - 1);
    }
  }

  /** The table after a history of steps, oldest first. */
  function GrantRun(rows: seq<GrantRow>, persistent: set<string>, steps: seq<GrantStep>): seq<GrantRow> {
    if steps == [] then rows
    else GrantNext(GrantRun(rows, persistent, steps[..|steps| - 1]), persistent, steps[|steps| - 1])
  }

  /** A row stores its constraint the way creation wrote it. */
  predicate Stores(row: GrantRow, c: GrantConstraint) {
    && WellFormed(c) && row.kind == Some(KindOf(c)) && row.constraints == Encode(c)
    && match c
       case Exact(hash) => row.operationHash == Some(hash) && row.capabilityHash.None?
       case ToolWide => row.operationHash.Some? && row.capabilityHash.None?
       case _ => row.operationHash.None?
                 && row.capabilityHash == Some(CapabilityHash(KindOf(c), row.constraints, row.schemaVersion))
  }

  /** Every row of a reachable table. */
  ghost predicate RowValid(row: GrantRow) {
    && row.risk != High
    && row.scope != Once
    && row.delegation == DelegationFor(row.scope)
    && (row.rootSession.Some? <==> row.scope == SessionScope)
    && (row.rootRun.Some? <==> row.scope == RunScope)
    && (row.actorRun.Some? <==> row.scope == RunScope)
    && (row.workspaceKey.Some? <==> row.scope == WorkspaceScope)
    && (row.scope == WorkspaceScope ==>
          row.analyzer == FileV1 && row.kind in {Some(ReadCapability), Some(EditCapability)})
    && exists c :: Stores(row, c)
  }

  ghost predicate TableValid(rows: seq<GrantRow>) {
    && (forall i :: 0 <= i < |rows| ==> RowValid(rows[i]))
    && (forall i, j :: 0 <= i < j < |rows| ==> rows[i].id != rows[j].id)
    && UniqueIdentities(rows)
  }

  lemma NewRowValid(req: CreateRequest, plan: GrantPlan)
    requires Plan(req.op, req.scope) == Some(plan)
    ensures RowValid(RowFor(req, plan)) && Stores(RowFor(req, plan), plan.constraint)
  {
    PlanShape(req.op, req.scope);
    assert Stores(RowFor(req, plan), plan.constraint);
  }

  lemma ExpireKeepsValid(rows: seq<GrantRow>, now: int)
    requires TableValid(rows)
    ensures TableValid(Expire(rows, now))
  {
    forall i | 0 <= i < |rows| ensures RowValid(Expire(rows, now)[i]) {
      var c :| Stores(rows[i], c);
      assert Stores(Expire(rows, now)[i], c);
    }
  }

  lemma GrantStepKeepsValid(rows: seq<GrantRow>, persistent: set<string>, step: GrantStep)
    requires TableValid(rows)
    ensures TableValid(GrantNext(rows, persistent, step))
  {
    if step.CreateStep? {
      CreateKeepsValid(rows, persistent, step.req);
    } else {
      var next := GrantNext(rows, persistent, step);
      forall i | 0 <= i < |rows| ensures RowValid(next[i]) {
        var c :| Stores(rows[i], c);
        assert Stores(next[i], c);
      }
    }
  }

  lemma CreateKeepsValid(rows: seq<GrantRow>, persistent: set<string>, req: CreateRequest)
    requires TableValid(rows)
    ensures TableValid(CreateGrant(rows, persistent, req).rows)
  {
    ExpireKeepsValid(rows, req.now);
    if Plan(req.op, req.scope).Some? {
      NewRowValid(req, Plan(req.op, req.scope).value);
      var live, row := Expire(rows, req.now), RowFor(req, Plan(req.op, req.scope).value);
      if forall i :: 0 <= i < |live| ==> !Conflicts(live[i], row) { AppendedRowKeepsValid(live, row); }
    }
  }

  lemma AppendedRowKeepsValid(rows: seq<GrantRow>, row: GrantRow)
    requires TableValid(rows) && RowValid(row) && forall i :: 0 <= i < |rows| ==> !Conflicts(rows[i], row)
    ensures TableValid(rows + [row])
  {
  }

  /** Every table reached from an empty one is valid, whatever the history. */
  lemma {:induction false} ReachableTablesAreValid(persistent: set<string>, steps: seq<GrantStep>)
    ensures TableValid(GrantRun([], persistent, steps))
  {
    if steps != [] {
      ReachableTablesAreValid(persistent, steps[..|steps| - 1]);
      GrantStepKeepsValid(GrantRun([], persistent, steps[..|steps| - 1]), persistent, steps[|steps| - 1]);
    }
  }

  /** A later form of a row: unchanged, or revoked once and for all. */
  predicate Persists(before: GrantRow, after: GrantRow) {
    after == before || (before.revokedAt.None? && after.revokedAt.Some?
                        && after == before.(revokedAt := after.revokedAt, version := before.version + 1))
  }

  /** No history rewrites or drops a row, and none brings a revoked row back. */
  lemma {:induction false} RowsPersist(rows: seq<GrantRow>, persistent: set<string>, steps: seq<GrantStep>)
    ensures var after := GrantRun(rows, persistent, steps);
      |rows| <= |after| && forall i :: 0 <= i < |rows| ==> Persists(rows[i], after[i])
  {
    if steps != [] {
      RowsPersist(rows, persistent, steps[..|steps| - 1]);
    }
  }

  /** A RUN row answers only the run that created it, whoever else shares its root. */
  lemma RunGrantsAreDirect(rows: seq<GrantRow>, i: nat, q: Query)
    requires TableValid(rows) && i < |rows| && rows[i].scope == RunScope && Eligible(rows[i], q)
    ensures rows[i].actorRun == Some(q.subject.currentRun) && rows[i].rootRun == Some(q.subject.rootRun)
  {
  }

  /** An eligible row is about the same tool, analyzer, action and schema, and about the caller's own scope. */
  lemma EligibleIsOwn(rows: seq<GrantRow>, i: nat, q: Query)
    requires TableValid(rows) && i < |rows| && Eligible(rows[i], q)
    ensures var row, s, op := rows[i], q.subject, q.op;
      && row.toolName == op.toolName && row.analyzer == op.analyzer && row.action == op.action
      && row.schemaVersion == op.schemaVersion && row.revokedAt.None? && q.now < row.expiresAt
      && (row.scope == RunScope ==> row.rootRun == Some(s.rootRun) && row.actorRun == Some(s.currentRun))
      && (row.scope == SessionScope ==> row.rootSession == Some(s.rootSession))
      && (row.scope == WorkspaceScope ==> row.workspaceKey == Some(s.workspaceKey))
      && (row.scope == RunScope ==>
            s.rootRun in q.runs && q.runs[s.rootRun] !in {Completed, Failed, Cancelled, Aborted})
      && (row.kind == Some(ExactGuarded) ==> row.operationHash == Some(op.operationHash))
  {
    var c :| Stores(rows[i], c);
    ConstraintRoundTrip(c, q.printed);
  }

  /** A WORKSPACE row answers only for in-workspace paths under one of its own prefixes. */
  lemma WorkspaceGrantsStayInside(rows: seq<GrantRow>, i: nat, q: Query)
    requires TableValid(rows) && i < |rows| && rows[i].scope == WorkspaceScope && Eligible(rows[i], q)
    ensures q.op.resources != [] && !AnyOutside(q.op.resources) && q.op.action.FileAction?
    ensures exists c :: Stores(rows[i], c) && MatchesFile(c.prefixes, c.operations, q.op)
  {
    var c :| Stores(rows[i], c);
    ConstraintRoundTrip(c, q.printed);
    assert MatchesFile(c.prefixes, c.operations, q.op);
  }

  /** HIGH operations store nothing, yet a remembered tool-wide grant does match one. */
  lemma ToolWideGrantMatchesHigh(req: CreateRequest, high: OperationDescriptor, q: Query)
    requires req.op.analyzer == BashV2 && req.op.risk == Guarded && req.scope == Some(SessionScope)
    requires high == req.op.(risk := High) && q.op == high && q.subject == req.subject && q.now == req.now
    ensures Plan(high, req.scope).None?
    ensures FindMatch(CreateGrant([], {req.subject.rootSession}, req).rows, q).Some?
  {
    var rows := CreateGrant([], {req.subject.rootSession}, req).rows;
    var plan := Plan(req.op, req.scope).value;
    assert rows == [RowFor(req, plan)];
    ConstraintRoundTrip(ToolWide, q.printed);
    assert Eligible(rows[0], q);
  }

  // ---------- a created grant is found ----------

  /** No two unrevoked rows carry one identity. */
  predicate UniqueIdentities(rows: seq<GrantRow>) {
    forall i, j :: 0 <= i < j < |rows| && rows[i].revokedAt.None? && rows[j].revokedAt.None? ==>
      KeyOf(rows[i]) != KeyOf(rows[j])
  }

  lemma OneOfIdentity(rows: seq<GrantRow>, some: seq<nat>, key: IdentityKey)
    requires UniqueIdentities(rows) && (|some| > 1 ==> some[0] < some[1])
    requires forall k :: 0 <= k < |some| ==>
        some[k] < |rows| && rows[some[k]].revokedAt.None? && KeyOf(rows[some[k]]) == key
    ensures |some| <= 1
  {
  }

  lemma ConflictIsTheOnlyTwin(live: seq<GrantRow>, row: GrantRow, i: nat)
    requires UniqueIdentities(live)
    requires i < |live| && live[i].revokedAt.None? && KeyOf(live[i]) == KeyOf(row)
    ensures ExactIdentity(live, KeyOf(row), |live|) == [i]
  {
    var existing := ExactIdentity(live, KeyOf(row), |live|);
    assert i in existing;
    OneOfIdentity(live, existing, KeyOf(row));
  }

  /** Row k is the live row that a creation's answer names for the request. */
  predicate AnswersAt(c: Created, req: CreateRequest, k: nat) {
    && Plan(req.op, req.scope).Some?
    && k < |c.rows| && c.outcome == Ok(Some(c.rows[k].id)) && Live(c.rows[k], req.now)
    && KeyOf(c.rows[k]) == KeyOf(RowFor(req, Plan(req.op, req.scope).value))
  }

  /** On a valid table the identity conflict cannot arise, and the answer names a live row for the request. */
  lemma CreateAnswersLiveRow(rows: seq<GrantRow>, persistent: set<string>, req: CreateRequest) returns (k: nat)
    requires TableValid(rows) && req.subject.rootSession in persistent && Plan(req.op, req.scope).Some?
    requires forall i :: 0 <= i < |rows| ==> rows[i].id != req.freshId
    ensures AnswersAt(CreateGrant(rows, persistent, req), req, k)
  {
    var live, row := Expire(rows, req.now), RowFor(req, Plan(req.op, req.scope).value);
    ExpireKeepsValid(rows, req.now);
    if i :| 0 <= i < |live| && Conflicts(live[i], row) {
      assert live[i].id == rows[i].id;
      ConflictIsTheOnlyTwin(live, row, i);
      k := i;
    } else {
      k := |live|;
    }
  }

  /** A live row carrying the request's identity authorizes the request, even if another request stored it. */
  lemma SameIdentityAuthorizes(row: GrantRow, req: CreateRequest, q: Query)
    requires RowValid(row) && Plan(req.op, req.scope).Some?
    requires KeyOf(row) == KeyOf(RowFor(req, Plan(req.op, req.scope).value))
    requires q.subject == req.subject && q.op == req.op && PathOperation(req.op)
    requires Live(row, q.now)
    requires row.scope == RunScope ==> !RootRunIsTerminal(q.runs, q.subject.rootRun)
    ensures Eligible(row, q)
  {
    var plan := Plan(req.op, req.scope).value;
    PlanShape(req.op, req.scope);
    NewRowValid(req, plan);
    var wanted := RowFor(req, plan);
    var c :| Stores(row, c);
    ConstraintRoundTrip(c, q.printed);
    assert KindOf(c) == KindOf(plan.constraint);
    match c {
      case Exact(hash) => assert hash == req.op.operationHash;
      case ToolWide =>
      case WorkspaceRead(_, _) =>
        ConstraintRoundTrip(plan.constraint, q.printed);
        assert row.constraints == wanted.constraints;
      case WorkspaceEdit(_, _) =>
        ConstraintRoundTrip(plan.constraint, q.printed);
        assert row.constraints == wanted.constraints;
    }
    assert InScope(row, q.subject);
  }

  /** Whom a scope speaks for: its very run, everything under its session, everything in its workspace. */
  predicate Shares(scope: PermissionScope, a: AuthorizationSubject, b: AuthorizationSubject) {
    match scope
    case RunScope => a.rootRun == b.rootRun && a.currentRun == b.currentRun
    case SessionScope => a.rootSession == b.rootSession
    case WorkspaceScope => a.workspaceKey == b.workspaceKey
    case Once => false
  }

  /**
   What is remembered is good for others too: any subject its scope speaks for, and any operation of
   the same tool that its constraint matches.
   */
  lemma RememberedCoversItsScope(req: CreateRequest, q: Query)
    requires Plan(req.op, req.scope).Some? && Shares(req.scope.value, req.subject, q.subject)
    requires Matches(Plan(req.op, req.scope).value.constraint, q.op)
    requires q.op.toolName == req.op.toolName && q.op.analyzer == req.op.analyzer && q.op.action == req.op.action
    requires q.op.schemaVersion == req.op.schemaVersion
    ensures var row := RowFor(req, Plan(req.op, req.scope).value);
      Eligible(row, q) <==>
        && q.now < req.now + (if req.scope == Some(WorkspaceScope) then 30 * 24 * 3_600_000 else 12 * 3_600_000)
        && (req.scope == Some(RunScope) ==>
              && q.subject.rootRun in q.runs
              && q.runs[q.subject.rootRun] !in {Completed, Failed, Cancelled, Aborted})
    ensures var row := RowFor(req, Plan(req.op, req.scope).value);
      && row.id == req.freshId && row.createdBy == req.interaction && row.createdAt == req.now
      && row.risk == req.op.risk && row.effects == req.op.effects && row.version == 0
  {
    var row := RowFor(req, Plan(req.op, req.scope).value);
    PlanShape(req.op, req.scope);
    ConstraintRoundTrip(Plan(req.op, req.scope).value.constraint, q.printed);
    assert row.scope == req.scope.value && InScope(row, q.subject);
    assert Usable(row, q) <==> !(row.scope == RunScope && RootRunIsTerminal(q.runs, q.subject.rootRun));
  }

  /** An unrevoked, unexpired row already carries the identity that the request asks for. */
  predicate HasTwin(rows: seq<GrantRow>, req: CreateRequest) {
    && Plan(req.op, req.scope).Some?
    && exists i :: 0 <= i < |rows| && Live(rows[i], req.now)
                   && KeyOf(rows[i]) == KeyOf(RowFor(req, Plan(req.op, req.scope).value))
  }

  lemma ExpireKeepsIdentities(rows: seq<GrantRow>, now: int, i: nat)
    requires i < |rows|
    ensures var live := Expire(rows, now);
      && live[i].id == rows[i].id && KeyOf(live[i]) == KeyOf(rows[i])
      && (live[i].revokedAt.None? <==> Live(rows[i], now))
      && live[i] == if rows[i].revokedAt.None? && rows[i].expiresAt <= now
                    then rows[i].(revokedAt := Some(now), version := rows[i].version + 1) else rows[i]
  {
  }

  /** After expiry, the planned row meets a row it conflicts with exactly where a live twin stands. */
  lemma ConflictIsATwin(rows: seq<GrantRow>, req: CreateRequest)
    requires Plan(req.op, req.scope).Some? && forall i :: 0 <= i < |rows| ==> rows[i].id != req.freshId
    ensures var live, row := Expire(rows, req.now), RowFor(req, Plan(req.op, req.scope).value);
      HasTwin(rows, req) <==> exists i :: 0 <= i < |live| && Conflicts(live[i], row)
  {
    var live, row := Expire(rows, req.now), RowFor(req, Plan(req.op, req.scope).value);
    if HasTwin(rows, req) {
      var i :| 0 <= i < |rows| && Live(rows[i], req.now) && KeyOf(rows[i]) == KeyOf(row);
      ExpireKeepsIdentities(rows, req.now, i);
      assert Conflicts(live[i], row);
    }
    if i :| 0 <= i < |live| && Conflicts(live[i], row) {
      ExpireKeepsIdentities(rows, req.now, i);
      assert Live(rows[i], req.now) && KeyOf(rows[i]) == KeyOf(row);
    }
  }

  /** Without a persistent session or a plan a creation does nothing; on a valid table it never conflicts. */
  lemma CreationAnswersExactly(rows: seq<GrantRow>, persistent: set<string>, req: CreateRequest)
    requires TableValid(rows) && forall i :: 0 <= i < |rows| ==> rows[i].id != req.freshId
    ensures var c := CreateGrant(rows, persistent, req);
      && (c.outcome == Err(SessionNotPersistent) <==> req.subject.rootSession !in persistent)
      && (c.outcome == Ok(None) <==> req.subject.rootSession in persistent && Plan(req.op, req.scope).None?)
      && c.outcome != Err(IdentityConflict)
      && (c.outcome.Err? || c.outcome.value.None? ==> c.rows == rows)
  {
    if req.subject.rootSession in persistent && Plan(req.op, req.scope).Some? {
      var k := CreateAnswersLiveRow(rows, persistent, req);
    }
  }

  /** Otherwise it revokes what has expired and, where no live row has the identity, appends the planned one. */
  lemma CreationWritesExactly(rows: seq<GrantRow>, persistent: set<string>, req: CreateRequest)
    requires TableValid(rows) && forall i :: 0 <= i < |rows| ==> rows[i].id != req.freshId
    requires req.subject.rootSession in persistent && Plan(req.op, req.scope).Some?
    ensures var after := CreateGrant(rows, persistent, req).rows;
      && (forall i :: 0 <= i < |rows| ==>
            i < |after|
            && after[i] == if rows[i].revokedAt.None? && rows[i].expiresAt <= req.now
                           then rows[i].(revokedAt := Some(req.now), version := rows[i].version + 1) else rows[i])
      && (HasTwin(rows, req) ==> |after| == |rows|)
      && (!HasTwin(rows, req) ==>
            |after| == |rows| + 1 && after[|rows|] == RowFor(req, Plan(req.op, req.scope).value))
  {
    var k := CreateAnswersLiveRow(rows, persistent, req);
    ConflictIsATwin(rows, req);
    forall i | 0 <= i < |rows| ensures Expire(rows, req.now)[i] ==
      if rows[i].revokedAt.None? && rows[i].expiresAt <= req.now
      then rows[i].(revokedAt := Some(req.now), version := rows[i].version + 1) else rows[i]
    {
      ExpireKeepsIdentities(rows, req.now, i);
    }
  }

  // ---------- revocation ----------

  /** What one revocation ends: its row, or every grant of a run, and nothing else. */
  lemma RevocationEndsExactly(rows: seq<GrantRow>, persistent: set<string>, step: GrantStep, i: nat)
    requires !step.CreateStep? && i < |rows|
    ensures var after := GrantNext(rows, persistent, step);
      && |after| == |rows|
      && (after[i] == rows[i] || after[i] == rows[i].(revokedAt := Some(step.now), version := rows[i].version + 1))
      && (after[i] != rows[i] <==>
            && rows[i].revokedAt.None?
            && (step.RevokeStep? ==> rows[i].id == step.id)
            && (step.RevokeForSessionStep? ==>
                  rows[i].id == step.id
                  && (rows[i].rootSession == Some(step.session) || rows[i].workspaceKey == Some(step.workspace)))
            && (step.RevokeRunScopedStep? ==> rows[i].scope == RunScope && rows[i].rootRun == Some(step.run)))
  {
  }

  /** No lookup is ever answered by a row that was revoked, whatever happens later. */
  lemma RevokedNeverAnswers(rows: seq<GrantRow>, persistent: set<string>, step: GrantStep, later: seq<GrantStep>,
                            i: nat, q: Query)
    requires !step.CreateStep? && i < |rows| && Revokes(step, rows[i])
    ensures var after := GrantRun(GrantNext(rows, persistent, step), persistent, later);
      i < |after| && after[i].id == rows[i].id && !Eligible(after[i], q)
  {
    RowsPersist(GrantNext(rows, persistent, step), persistent, later);
  }

  /**
   A remembered decision keeps working: after creation (inserted or reused) and any later
   history, as long as the answered row is neither revoked nor expired and, for a RUN row,
   its root still runs, the lookup for that subject and operation succeeds.
   */
  lemma CreatedGrantIsFound(rows: seq<GrantRow>, persistent: set<string>, req: CreateRequest,
                            steps: seq<GrantStep>, k: nat, q: Query)
    requires TableValid(rows) && AnswersAt(CreateGrant(rows, persistent, req), req, k)
    requires PathOperation(req.op) && q.subject == req.subject && q.op == req.op
    requires var after := GrantRun(CreateGrant(rows, persistent, req).rows, persistent, steps);
      k < |after| ==>
        && Live(after[k], q.now)
        && (after[k].scope == RunScope ==> !RootRunIsTerminal(q.runs, q.subject.rootRun))
    ensures FindMatch(GrantRun(CreateGrant(rows, persistent, req).rows, persistent, steps), q).Some?
  {
    var created := CreateGrant(rows, persistent, req).rows;
    var after := GrantRun(created, persistent, steps);
    RowsPersist(created, persistent, steps);
    assert Persists(created[k], after[k]);
    GrantStepKeepsValid(rows, persistent, CreateStep(req));
    SameIdentityAuthorizes(after[k], req, q);
    FindMatchIsLeastRankNewest(after, q);
  }

  // ---------- the store ----------

  class GrantStore {
    var rows: seq<GrantRow>

    constructor ()
      ensures rows == []
    {
      rows := [];
    }

    /** Places an index among the selected ones in the query's order. */
    method InsertCandidate(q: Query, candidates: seq<nat>, i: nat) returns (out: seq<nat>)
      requires i < |rows| && Selected(rows[i], q)
      requires forall k :: 0 <= k < |candidates| ==> candidates[k] < i && Selected(rows[candidates[k]], q)
      requires forall k, l :: 0 <= k < l < |candidates| ==> Before(rows, candidates[k], candidates[l])
      ensures forall k :: 0 <= k < |out| ==> out[k] <= i && Selected(rows[out[k]], q)
      ensures forall k, l :: 0 <= k < l < |out| ==> Before(rows, out[k], out[l])
      ensures forall x :: x in out <==> x == i || x in candidates
    {
      var at := 0;
      while at < |candidates| && Before(rows, candidates[at], i)
        invariant 0 <= at <= |candidates|
        invariant forall k :: 0 <= k < at ==> Before(rows, candidates[k], i)
      {
        at := at + 1;
      }
      out := candidates[..at] + [i] + candidates[at..];
      assert candidates == candidates[..at] + candidates[at..];
    }

    /** Reads the selected rows in order and stops at the first that authorizes the operation. */
    method FindMatchAt(q: Query) returns (r: Option<GrantMatch>)
      ensures r == FindMatch(rows, q)
    {
      var candidates: seq<nat> := [];
      for i := 0 to |rows|
        invariant forall k :: 0 <= k < |candidates| ==> candidates[k] < i && Selected(rows[candidates[k]], q)
        invariant forall k, l :: 0 <= k < l < |candidates| ==> Before(rows, candidates[k], candidates[l])
        invariant forall x: nat :: x < i && Selected(rows[x], q) ==> x in candidates
      {
        if Selected(rows[i], q) {
          candidates := InsertCandidate(q, candidates, i);
        }
      }
      ghost var best := BestIndex(rows, |rows|, q);
      assert best.Some? ==> best.value in candidates;
      for k := 0 to |candidates|
        invariant forall l :: 0 <= l < k ==> !Usable(rows[candidates[l]], q)
      {
        var row := rows[candidates[k]];
        if row.scope == RunScope && RootRunIsTerminal(q.runs, q.subject.rootRun) { continue; }
        if row.kind.None? { continue; }
        var constraint := Decode(row.kind.value, row.constraints, q.printed);
        if constraint.None? { continue; }
        if Matches(constraint.value, q.op) {
          assert Eligible(rows[candidates[k]], q);
          ghost var b :| 0 <= b < |candidates| && candidates[b] == best.value;
          assert b >= k;
          assert b == k;
          return Some(MatchOf(row));
        }
      }
      return None;
    }

    method ExpireAll(now: int)
      modifies this
      ensures rows == Expire(old(rows), now)
    {
      ghost var start := rows;
      for i := 0 to |rows|
        invariant |rows| == |start|
        invariant forall k :: 0 <= k < |rows| ==> rows[k] == if k < i then ExpireRow(start[k], now) else start[k]
      {
        if rows[i].revokedAt.None? && rows[i].expiresAt <= now {
          rows := rows[i := Revoked(rows[i], now)];
        }
      }
    }

    /** One write transaction: everything below commits together or not at all. */
    method Create(persistent: set<string>, req: CreateRequest) returns (outcome: Result<Option<string>, CreateError>)
      modifies this
      ensures rows == CreateGrant(old(rows), persistent, req).rows
      ensures outcome == CreateGrant(old(rows), persistent, req).outcome
    {
      var before := rows;
      if req.subject.rootSession !in persistent {
        return Err(SessionNotPersistent);
      }
      var plan := Plan(req.op, req.scope);
      if plan.None? {
        return Ok(None);
      }
      ExpireAll(req.now);
      var row := RowFor(req, plan.value);
      if forall i :: 0 <= i < |rows| ==> !Conflicts(rows[i], row) {
        rows := rows + [row];
        return Ok(Some(row.id));
      }
      var existing := ExactIdentity(rows, KeyOf(row), |rows|);
      if |existing| != 1 {
        rows := before;
        return Err(IdentityConflict);
      }
      return Ok(Some(rows[existing[0]].id));
    }

    /** The three revocations share one update: mark what the step selects, once. */
    method Revoke(step: GrantStep) returns (changed: nat)
      requires !step.CreateStep?
      modifies this
      ensures rows == GrantNext(old(rows), {}, step)
      ensures changed == RevokeCount(old(rows), step, |old(rows)|)
    {
      ghost var start := rows;
      changed := 0;
      for i := 0 to |rows|
        invariant |rows| == |start|
        invariant forall k :: 0 <= k < |rows| ==>
          rows[k] == if k < i && Revokes(step, start[k]) then Revoked(start[k], step.now) else start[k]
        invariant changed == RevokeCount(start, step, i)
      {
        if Revokes(step, rows[i]) {
          rows := rows[i := Revoked(rows[i], step.now)];
          changed := changed + 1;
        }
      }
    }
  }
}
