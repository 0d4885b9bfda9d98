/**
 The decision chain of crates/zk-authz/src/service.rs and its final recheck, two
 separately written policies over the same facts.
 */
module AuthorizationPolicy {
  import opened Wrappers
  import opened AuthzModel
  import opened Constraints
  import opened Grants
  import opened Paths

  datatype InteractionStatus = Pending | Answered | Denied | Expired | Withdrawn | Undeliverable

  datatype DecisionOption = DecisionOption(optionId: string, allow: bool, scope: PermissionScope)

  datatype Response = Response(optionId: string, remember: bool, operationHash: string)

  /** A durable permission question with the facts frozen when it was asked. */
  datatype Interaction = Interaction(
    status: InteractionStatus,
    runId: string,
    toolUseId: string,
    subject: AuthorizationSubject,
    inputHash: string,
    operationHash: string,
    options: seq<DecisionOption>,
    response: Option<Response>)

  /** Everything a decision reads; the filesystem's scratchpad answer is an abstract function. */
  datatype World = World(
    now: int,
    modes: map<string, PermissionMode>,
    trusted: set<Path>,
    scratchpad: Path -> bool,
    grants: seq<GrantRow>,
    runs: RunTable,
    interactions: map<string, Interaction>,
    printed: Json -> string)

  /** A session without a recorded mode is in DEFAULT. */
  function ModeOf(w: World, session: string): PermissionMode {
    if session in w.modes then w.modes[session] else DefaultMode
  }

  function Lookup(w: World, s: AuthorizationSubject, op: OperationDescriptor): Option<GrantMatch> {
    FindMatch(w.grants, Query(w.now, s, op, w.runs, w.printed))
  }

  // ---------- the trusted-location predicates ----------

  const PRIVATE_TMP: Path := ["private", "tmp"]

  predicate OrdinaryFileOperation(op: OperationDescriptor) {
    match op.toolName
    case "Read" => op.action == FileAction(ReadFile) && op.effects == [ReadResource]
    case "Write" => op.action == FileAction(ReplaceFile) && op.effects == [WriteResource]
    case "Edit" => op.action == FileAction(PatchFile) && op.effects == [WriteResource]
    case "NotebookEdit" => op.action == FileAction(PatchFile) && op.effects == [WriteResource]
    case _ => false
  }

  predicate TrustedResource(r: ResourceRef, root: Path, contains: Path -> bool) {
    && r.kind == PATH_KIND && !Blank(r.value) && NUL !in r.value
    && contains(Resolve(root, r.value))
  }

  predicate TrustedOrdinaryFile(w: World, s: AuthorizationSubject, op: OperationDescriptor, contains: Path -> bool) {
    && op.analyzer == FileV1 && op.risk != High && OrdinaryFileOperation(op) && op.resources != []
    && (forall i :: 0 <= i < |op.resources| ==> TrustedResource(op.resources[i], s.authorizationRoot, contains))
    && s.authorizationRoot in w.trusted
  }

  predicate TrustedScratchpad(w: World, s: AuthorizationSubject, op: OperationDescriptor) {
    TrustedOrdinaryFile(w, s, op, w.scratchpad)
  }

  predicate UnderPrivateTmp(p: Path) { PRIVATE_TMP <= p }

  predicate TrustedPrivateTmp(w: World, s: AuthorizationSubject, op: OperationDescriptor) {
    TrustedOrdinaryFile(w, s, op, UnderPrivateTmp)
  }

  predicate TrustedProjectWrite(w: World, s: AuthorizationSubject, op: OperationDescriptor) {
    && op.analyzer == FileV1 && op.risk == Guarded && op.effects == [WriteResource]
    && op.resources != [] && !AnyOutside(op.resources)
    && s.authorizationRoot in w.trusted
  }

  // ---------- the chain as its documented table ----------

  datatype DenialCode = PLAN_MODE_EFFECT_DENIED | PERMISSION_INTERACTION_REQUIRED

  /** The outcome of the non-interactive chain; asking the user is the third outcome. */
  datatype Verdict =
    | Allow(source: DiagnosticSource, reason: ReasonCode, grant: Option<GrantMatch>)
    | Deny(code: DenialCode)
    | Ask

  /** The chain: which branch decides, given the mode that was read and the grant that was found. */
  function Decide(mode: PermissionMode, found: Option<GrantMatch>, w: World, s: AuthorizationSubject,
                  op: OperationDescriptor): Verdict
  {
    var read := op.effects == [ReadResource];
    if op.effects == [SafeInternal] then Allow(Policy, BUILTIN_SAFE, None)
    else if mode == AutoApprove then Allow(Mode, AUTO_APPROVE, None)
    else if op.risk == High then
      if mode == PlanMode then Deny(PLAN_MODE_EFFECT_DENIED)
      else if mode == DontAsk then Deny(PERMISSION_INTERACTION_REQUIRED)
      else Ask
    else if mode != PlanMode && found.Some? then Allow(Grant, GRANT_MATCH, found)
    else if read && TrustedScratchpad(w, s, op) then Allow(Policy, SYSTEM_SCRATCHPAD_SCOPE, None)
    else if read && TrustedPrivateTmp(w, s, op) then Allow(Policy, PRIVATE_TMP_FILE_SCOPE, None)
    else if op.analyzer == FileV1 && op.risk == Safe && read then Allow(Mode, SAFE_READ_AUTO, None)
    else if mode == PlanMode then Deny(PLAN_MODE_EFFECT_DENIED)
    else if !read && TrustedScratchpad(w, s, op) then Allow(Policy, SYSTEM_SCRATCHPAD_SCOPE, None)
    else if !read && TrustedPrivateTmp(w, s, op) then Allow(Policy, PRIVATE_TMP_FILE_SCOPE, None)
    else if TrustedProjectWrite(w, s, op) then Allow(Policy, PROJECT_FILE_SCOPE, None)
    else if mode == DontAsk then Deny(PERMISSION_INTERACTION_REQUIRED)
    else if AcceptsEdits(mode, op) then Allow(Mode, ACCEPT_EDITS, None)
    else Ask
  }

  predicate AcceptsEdits(mode: PermissionMode, op: OperationDescriptor) {
    && mode == AcceptEdits && op.analyzer == FileV1 && op.risk != High
    && !AnyOutside(op.resources) && op.effects == [WriteResource]
  }

  // ---------- the final recheck ----------

  /** The non-interactive policy branches, re-evaluated under the admission transaction. */
  predicate CurrentPolicyAllows(w: World, s: AuthorizationSubject, op: OperationDescriptor, mode: PermissionMode) {
    if op.effects == [SafeInternal] || mode == AutoApprove then true
    else if op.risk == High || op.analyzer == HookV1 then false
    else
      var read := op.effects == [ReadResource];
      if read && op.analyzer == FileV1 && op.risk == Safe then true
      else if (read || mode != PlanMode) && (TrustedScratchpad(w, s, op) || TrustedPrivateTmp(w, s, op)) then true
      else if mode == PlanMode then false
      else
        || TrustedProjectWrite(w, s, op)
        || (mode == AcceptEdits && op.analyzer == FileV1 && op.effects == [WriteResource] && !AnyOutside(op.resources))
  }

  predicate AcceptsTools(runs: RunTable, run: string) {
    run in runs && runs[run] in {Running, WaitingInteraction, WaitingDependencies}
  }

  /** A one-time approval still stands for exactly this subject, operation and tool use. */
  predicate AnsweredOnce(w: World, id: Option<string>, s: AuthorizationSubject, op: OperationDescriptor,
      toolUse: string) {
    && id.Some? && id.value in w.interactions
    && var i := w.interactions[id.value];
    && i.status == Answered && i.runId == s.currentRun && i.toolUseId == toolUse
    && i.inputHash == op.inputHash && i.operationHash == op.operationHash
    && i.subject.rootSession == s.rootSession && i.subject.rootRun == s.rootRun
    && i.subject.currentRun == s.currentRun && i.subject.workspaceKey == s.workspaceKey
    && i.response.Some? && i.response.value.operationHash == i.operationHash
    && exists k :: && 0 <= k < |i.options| && i.options[k].optionId == i.response.value.optionId
                   && i.options[k].allow && i.options[k].scope == Once
                   && forall l :: 0 <= l < k ==> i.options[l].optionId != i.response.value.optionId
  }

  datatype RecheckError =
    | ModeChanged | RunClosed | GrantInvalid | OnceInvalid | ProjectInvalid | ScratchpadInvalid | PrivateTmpInvalid

  /** Everything re-read inside the write transaction, just before the tool may start. */
  function FinalRecheck(w: World, a: AuthorizedOperation, toolUse: string): Result<(), RecheckError> {
    var s, op := a.subject, a.descriptor;
    var mode := ModeOf(w, s.rootSession);
    if (mode == PlanMode || a.reason == AUTO_APPROVE || a.reason == ACCEPT_EDITS)
      && !CurrentPolicyAllows(w, s, op, mode)
    then Err(ModeChanged)
    else if !AcceptsTools(w.runs, s.currentRun) then Err(RunClosed)
    else if a.grantId.Some? then
      var current := Lookup(w, s, op);
      if current.None? || current.value.grantId != a.grantId.value then Err(GrantInvalid) else Ok(())
    else if a.source == UserOnce then
      if AnsweredOnce(w, a.interactionId, s, op, toolUse) then Ok(()) else Err(OnceInvalid)
    else if a.source == Policy && a.reason == PROJECT_FILE_SCOPE && !TrustedProjectWrite(w, s, op) then
      Err(ProjectInvalid)
    else if a.source == Policy && a.reason == SYSTEM_SCRATCHPAD_SCOPE && !TrustedScratchpad(w, s, op) then
      Err(ScratchpadInvalid)
    else if a.source == Policy && a.reason == PRIVATE_TMP_FILE_SCOPE && !TrustedPrivateTmp(w, s, op) then
      Err(PrivateTmpInvalid)
    else Ok(())
  }

  function AuthorizedBy(v: Verdict, s: AuthorizationSubject, op: OperationDescriptor): AuthorizedOperation
    requires v.Allow?
  {
    match v.grant
    case None => AuthorizedOperation(s, op, v.source, v.reason, None, None, None)
    case Some(m) => AuthorizedOperation(s, op, v.source, v.reason, Some(m.grantId), Some(m.scope), None)
  }

  /** The two policies agree: without a remembered grant, the chain allows exactly what the recheck policy allows. */
  lemma PoliciesAgree(mode: PermissionMode, w: World, s: AuthorizationSubject, op: OperationDescriptor)
    ensures Decide(mode, None, w, s, op).Allow? <==> CurrentPolicyAllows(w, s, op, mode)
  {
  }

  /**
   The modes are ordered by what they let through: PLAN less than DEFAULT, DEFAULT less than
   ACCEPT_EDITS, AUTO_APPROVE everything. DONT_ASK lets through what DEFAULT does and denies what
   DEFAULT would ask; only DEFAULT and ACCEPT_EDITS ask, only PLAN and DONT_ASK deny. Beyond
   DEFAULT, ACCEPT_EDITS lets through only non-HIGH file writes inside the workspace.
   */
  lemma ModesAreOrdered(found: Option<GrantMatch>, w: World, s: AuthorizationSubject, op: OperationDescriptor)
    ensures Decide(PlanMode, found, w, s, op).Allow? ==> Decide(DefaultMode, found, w, s, op).Allow?
    ensures Decide(DefaultMode, found, w, s, op).Allow? ==>
              Decide(AcceptEdits, found, w, s, op) == Decide(DefaultMode, found, w, s, op)
    ensures Decide(AutoApprove, found, w, s, op).Allow?
    ensures Decide(DontAsk, found, w, s, op).Allow? <==> Decide(DefaultMode, found, w, s, op).Allow?
    ensures Decide(DontAsk, found, w, s, op).Deny? <==> Decide(DefaultMode, found, w, s, op).Ask?
    ensures forall mode :: Decide(mode, found, w, s, op).Ask? ==> mode in {DefaultMode, AcceptEdits}
    ensures forall mode :: Decide(mode, found, w, s, op).Deny? ==> mode in {PlanMode, DontAsk}
    ensures Decide(AcceptEdits, found, w, s, op).Allow? && Decide(DefaultMode, found, w, s, op).Ask? ==>
              op.risk != High && op.analyzer == FileV1 && op.effects == [WriteResource] && !AnyOutside(op.resources)
  {
  }

  /** An allow without a grant rests on the current policy, and one for a trusted place on that place. */
  lemma AllowWithoutGrant(mode: PermissionMode, found: Option<GrantMatch>, w: World, s: AuthorizationSubject,
                          op: OperationDescriptor)
    requires Decide(mode, found, w, s, op).Allow? && Decide(mode, found, w, s, op).reason != GRANT_MATCH
    ensures var v := Decide(mode, found, w, s, op);
      && v.grant.None? && v.source != UserOnce && CurrentPolicyAllows(w, s, op, mode)
      && (v.reason == PROJECT_FILE_SCOPE ==> TrustedProjectWrite(w, s, op))
      && (v.reason == SYSTEM_SCRATCHPAD_SCOPE ==> TrustedScratchpad(w, s, op))
      && (v.reason == PRIVATE_TMP_FILE_SCOPE ==> TrustedPrivateTmp(w, s, op))
  {
  }

  /** Time alone changes no verdict of the current policy. */
  lemma PolicyIgnoresTime(w: World, later: int, s: AuthorizationSubject, op: OperationDescriptor, mode: PermissionMode)
    ensures CurrentPolicyAllows(w.(now := later), s, op, mode) == CurrentPolicyAllows(w, s, op, mode)
    ensures TrustedProjectWrite(w.(now := later), s, op) == TrustedProjectWrite(w, s, op)
    ensures TrustedScratchpad(w.(now := later), s, op) == TrustedScratchpad(w, s, op)
    ensures TrustedPrivateTmp(w.(now := later), s, op) == TrustedPrivateTmp(w, s, op)
  {
  }

  /** An operation allowed without asking passes the recheck while nothing it rested on has changed. */
  lemma FreshAllowPassesRecheck(w: World, s: AuthorizationSubject, op: OperationDescriptor, later: int, toolUse: string)
    requires w.now <= later && AcceptsTools(w.runs, s.currentRun)
    requires var q := Query(w.now, s, op, w.runs, w.printed);
      var v, best := Decide(ModeOf(w, s.rootSession), Lookup(w, s, op), w, s, op), BestIndex(w.grants, |w.grants|, q);
      v.Allow? && v.reason == GRANT_MATCH && best.Some? ==> Live(w.grants[best.value], later)
    ensures var v := Decide(ModeOf(w, s.rootSession), Lookup(w, s, op), w, s, op);
      v.Allow? ==> FinalRecheck(w.(now := later), AuthorizedBy(v, s, op), toolUse) == Ok(())
  {
    var mode, found := ModeOf(w, s.rootSession), Lookup(w, s, op);
    var v := Decide(mode, found, w, s, op);
    var w' := w.(now := later);
    var q := Query(w.now, s, op, w.runs, w.printed);
    if v.Allow? {
      if v.reason == GRANT_MATCH {
        FindMatchStable(w.grants, q, later);
      } else {
        AllowWithoutGrant(mode, found, w, s, op);
        PolicyIgnoresTime(w, later, s, op, mode);
      }
    }
  }

  // ---------- what each branch lets through ----------

  predicate Interactive(mode: PermissionMode) { mode in {DefaultMode, AcceptEdits, DontAsk} }

  /**
   A grant decides exactly where it may: in every interactive mode, for anything neither internal
   nor HIGH, the grant that was found is the answer; anywhere else it changes nothing.
   */
  lemma GrantDecidesExactly(mode: PermissionMode, m: GrantMatch, w: World, s: AuthorizationSubject,
                            op: OperationDescriptor)
    ensures Decide(mode, Some(m), w, s, op) ==
            if Interactive(mode) && op.effects != [SafeInternal] && op.risk != High
            then Allow(Grant, GRANT_MATCH, Some(m)) else Decide(mode, None, w, s, op)
  {
  }

  /** A denial blames PLAN under PLAN, and the missing interaction under DONT_ASK. */
  lemma DenialNamesItsMode(mode: PermissionMode, found: Option<GrantMatch>, w: World, s: AuthorizationSubject,
                           op: OperationDescriptor)
    requires Decide(mode, found, w, s, op).Deny?
    ensures Decide(mode, found, w, s, op).code ==
            if mode == PlanMode then PLAN_MODE_EFFECT_DENIED else PERMISSION_INTERACTION_REQUIRED
  {
  }

  predicate SafeFileRead(op: OperationDescriptor) {
    op.analyzer == FileV1 && op.risk == Safe && op.effects == [ReadResource]
  }

  predicate TrustedPlace(w: World, s: AuthorizationSubject, op: OperationDescriptor) {
    TrustedScratchpad(w, s, op) || TrustedPrivateTmp(w, s, op)
  }

  predicate FileEdit(op: OperationDescriptor) {
    op.analyzer == FileV1 && op.risk != High && op.effects == [WriteResource] && !AnyOutside(op.resources)
  }

  /** What each mode lets through without a grant, and when it asks instead of denying. */
  lemma ModesAllowExactly(w: World, s: AuthorizationSubject, op: OperationDescriptor)
    requires op.effects != [SafeInternal]
    ensures Decide(PlanMode, None, w, s, op).Allow? <==>
              op.risk != High && (SafeFileRead(op) || (op.effects == [ReadResource] && TrustedPlace(w, s, op)))
    ensures Decide(DefaultMode, None, w, s, op).Allow? <==>
              op.risk != High && (SafeFileRead(op) || TrustedPlace(w, s, op) || TrustedProjectWrite(w, s, op))
    ensures Decide(AcceptEdits, None, w, s, op).Allow? <==>
              Decide(DefaultMode, None, w, s, op).Allow? || FileEdit(op)
    ensures forall mode :: mode in {DefaultMode, AcceptEdits} ==>
              (Decide(mode, None, w, s, op).Ask? <==> !Decide(mode, None, w, s, op).Allow?)
    ensures forall mode :: mode in {PlanMode, DontAsk} ==>
              (Decide(mode, None, w, s, op).Deny? <==> !Decide(mode, None, w, s, op).Allow?)
  {
  }

  /** Internal operations pass in every mode; each allow says what it rests on. */
  lemma ReasonsAreGrounds(mode: PermissionMode, found: Option<GrantMatch>, w: World, s: AuthorizationSubject,
                          op: OperationDescriptor)
    ensures op.effects == [SafeInternal] ==> Decide(mode, found, w, s, op) == Allow(Policy, BUILTIN_SAFE, None)
    ensures op.effects != [SafeInternal] && mode == AutoApprove ==>
              Decide(mode, found, w, s, op) == Allow(Mode, AUTO_APPROVE, None)
    ensures var v := Decide(mode, found, w, s, op);
      v.Allow? && op.effects != [SafeInternal] && mode != AutoApprove ==>
        && (v.reason == GRANT_MATCH <==> v.source == Grant)
        && (v.reason == SAFE_READ_AUTO ==> v.source == Mode && SafeFileRead(op))
        && (v.reason == ACCEPT_EDITS ==>
              v.source == Mode && mode == AcceptEdits && FileEdit(op) && !TrustedProjectWrite(w, s, op))
        && (v.reason in {SYSTEM_SCRATCHPAD_SCOPE, PRIVATE_TMP_FILE_SCOPE, PROJECT_FILE_SCOPE} <==> v.source == Policy)
        && (v.reason == SYSTEM_SCRATCHPAD_SCOPE ==> TrustedScratchpad(w, s, op))
        && (v.reason == PRIVATE_TMP_FILE_SCOPE ==> TrustedPrivateTmp(w, s, op) && !TrustedScratchpad(w, s, op))
        && (v.reason == PROJECT_FILE_SCOPE ==> TrustedProjectWrite(w, s, op) && !TrustedPlace(w, s, op))
        && v.reason in {GRANT_MATCH, SAFE_READ_AUTO, ACCEPT_EDITS, SYSTEM_SCRATCHPAD_SCOPE, PRIVATE_TMP_FILE_SCOPE,
                        PROJECT_FILE_SCOPE}
  {
  }

  /** The ordinary operations: reading by Read, replacing by Write, patching by Edit and NotebookEdit. */
  lemma OrdinaryExactly(op: OperationDescriptor)
    ensures OrdinaryFileOperation(op) <==>
              || (op.toolName == "Read" && op.action == FileAction(ReadFile) && op.effects == [ReadResource])
              || (op.toolName == "Write" && op.action == FileAction(ReplaceFile) && op.effects == [WriteResource])
              || (op.toolName in {"Edit", "NotebookEdit"} && op.action == FileAction(PatchFile)
                  && op.effects == [WriteResource])
  {
    assert "Read"[0] == 'R' && "Write"[0] == 'W' && "Edit"[0] == 'E' && "NotebookEdit"[0] == 'N';
  }

  /** For an ordinary file operation on one path, a trusted place is a matter of that path and of the root's trust. */
  lemma TrustedPlaceIsThePath(w: World, s: AuthorizationSubject, op: OperationDescriptor, p: Path, outside: bool)
    requires Normal(p) && NUL !in TextOfPath(p) && op.resources == [ResourceRef(PATH_KIND, TextOfPath(p), outside)]
    requires op.analyzer == FileV1 && op.risk != High && OrdinaryFileOperation(op)
    ensures TrustedPrivateTmp(w, s, op) <==>
              s.authorizationRoot in w.trusted && |p| >= 2 && p[0] == "private" && p[1] == "tmp"
    ensures TrustedScratchpad(w, s, op) <==> s.authorizationRoot in w.trusted && w.scratchpad(p)
  {
    PathTextRoundTrip(s.authorizationRoot, p);
    var text := TextOfPath(p);
    assert text[0] == SLASH && !IsWhitespace(text[0]);
    assert op.resources[0].value == text;
    assert PRIVATE_TMP <= p <==> |p| >= 2 && p[0] == "private" && p[1] == "tmp";
  }

  // ---------- the recheck, source by source ----------

  /** A run that still accepts tools. */
  lemma AcceptsToolsExactly(runs: RunTable, run: string)
    ensures AcceptsTools(runs, run) <==>
              run in runs
              && (runs[run] == Running || runs[run] == WaitingInteraction || runs[run] == WaitingDependencies)
  {
  }

  /** The option a response names: the first with its identifier. */
  function ChosenOption(options: seq<DecisionOption>, id: string): Option<DecisionOption> {
    if options == [] then None
    else if options[0].optionId == id then Some(options[0])
    else ChosenOption(options[1..], id)
  }

  lemma {:induction false} ChosenIsFirst(options: seq<DecisionOption>, id: string)
    ensures match ChosenOption(options, id)
      case None => forall k :: 0 <= k < |options| ==> options[k].optionId != id
      case Some(o) => exists k :: 0 <= k < |options| && options[k] == o && o.optionId == id
                                  && forall l :: 0 <= l < k ==> options[l].optionId != id
  {
    if options != [] && options[0].optionId != id {
      ChosenIsFirst(options[1..], id);
      if ChosenOption(options[1..], id).Some? {
        var o := ChosenOption(options[1..], id).value;
        var k :| 0 <= k < |options[1..]| && options[1..][k] == o && forall l :: 0 <= l < k ==>
                   options[1..][l].optionId != id;
        assert options[k + 1] == o;
        forall l | 0 <= l < k + 1 ensures options[l].optionId != id {
          if l > 0 { assert options[1..][l - 1] == options[l]; }
        }
      }
    }
  }

  /** What the row of a question says about this very operation and tool use. */
  predicate RowApproves(i: Interaction, s: AuthorizationSubject, op: OperationDescriptor, toolUse: string) {
    && i.status == Answered && i.runId == s.currentRun && i.toolUseId == toolUse
    && i.inputHash == op.inputHash && i.operationHash == op.operationHash
    && i.subject.(authorizationRoot := s.authorizationRoot) == s
    && i.response.Some? && i.response.value.operationHash == op.operationHash
    && var chosen := ChosenOption(i.options, i.response.value.optionId);
       chosen.Some? && chosen.value.allow && chosen.value.scope == Once
  }

  lemma RowApprovesIsAnsweredOnce(w: World, q: string, s: AuthorizationSubject, op: OperationDescriptor,
                                  toolUse: string)
    ensures AnsweredOnce(w, Some(q), s, op, toolUse) <==>
              q in w.interactions && RowApproves(w.interactions[q], s, op, toolUse)
  {
    if q in w.interactions && w.interactions[q].response.Some? {
      var i := w.interactions[q];
      var id := i.response.value.optionId;
      ChosenIsFirst(i.options, id);
      if AnsweredOnce(w, Some(q), s, op, toolUse) {
        var k :| && 0 <= k < |i.options| && i.options[k].optionId == id && i.options[k].allow
                 && i.options[k].scope == Once && forall l :: 0 <= l < k ==> i.options[l].optionId != id;
        assert ChosenOption(i.options, id) == Some(i.options[k]);
      }
    }
  }

  /** What the recheck asks of every operation: a run that accepts tools, and under PLAN what PLAN allows. */
  predicate StillAdmissible(w: World, s: AuthorizationSubject, op: OperationDescriptor) {
    && AcceptsTools(w.runs, s.currentRun)
    && (ModeOf(w, s.rootSession) == PlanMode ==> Decide(PlanMode, None, w, s, op).Allow?)
  }

  /** A one-time approval passes exactly while its question's row approves this operation and the run goes on. */
  lemma OnceRecheckExactly(w: World, s: AuthorizationSubject, op: OperationDescriptor, q: string, toolUse: string)
    ensures FinalRecheck(w, AuthorizedOperation(s, op, UserOnce, USER_APPROVED_ONCE, None, None, Some(q)), toolUse).Ok?
       <==> StillAdmissible(w, s, op) && q in w.interactions && RowApproves(w.interactions[q], s, op, toolUse)
  {
    PoliciesAgree(PlanMode, w, s, op);
    RowApprovesIsAnsweredOnce(w, q, s, op, toolUse);
  }

  /** A remembered one passes exactly while the same grant still answers the lookup. */
  lemma GrantRecheckExactly(w: World, a: AuthorizedOperation, toolUse: string)
    requires a.grantId.Some? && a.reason in {GRANT_MATCH, USER_REMEMBERED_GRANT}
    ensures FinalRecheck(w, a, toolUse).Ok? <==>
              && StillAdmissible(w, a.subject, a.descriptor)
              && Lookup(w, a.subject, a.descriptor).Some?
              && Lookup(w, a.subject, a.descriptor).value.grantId == a.grantId.value
  {
    PoliciesAgree(PlanMode, w, a.subject, a.descriptor);
  }

  /** One that rests on mode or policy passes exactly while that mode or place still lets it through. */
  lemma PolicyRecheckExactly(w: World, a: AuthorizedOperation, toolUse: string)
    requires a.grantId.None? && a.source in {Policy, Mode}
    requires a.source == Policy <==>
               a.reason in {BUILTIN_SAFE, SYSTEM_SCRATCHPAD_SCOPE, PRIVATE_TMP_FILE_SCOPE, PROJECT_FILE_SCOPE}
    ensures var s, op, mode := a.subject, a.descriptor, ModeOf(w, a.subject.rootSession);
      FinalRecheck(w, a, toolUse).Ok? <==>
        && StillAdmissible(w, s, op)
        && (a.reason in {AUTO_APPROVE, ACCEPT_EDITS} ==> Decide(mode, None, w, s, op).Allow?)
        && (a.reason == PROJECT_FILE_SCOPE ==> TrustedProjectWrite(w, s, op))
        && (a.reason == SYSTEM_SCRATCHPAD_SCOPE ==> TrustedScratchpad(w, s, op))
        && (a.reason == PRIVATE_TMP_FILE_SCOPE ==> TrustedPrivateTmp(w, s, op))
  {
    PoliciesAgree(ModeOf(w, a.subject.rootSession), w, a.subject, a.descriptor);
  }
}
