/**
 Authorization attempts and the execution gateway as one transition system
 (crates/zk-authz/src/service.rs and gateway.rs). Every await is a step boundary, so the
 world may change between any two segments of an attempt; a write transaction is one step.
 */
module Admission {
  import opened Wrappers
  import opened AuthzModel
  import opened Constraints
  import opened Grants
  import opened AuthorizationPolicy

  datatype Code =
    | PlanModeEffectDenied | InteractionDisabled | InteractionRequired
    | InteractionEnded(status: InteractionStatus)
    | DynamicRecheckDenied | FinalRecheckDenied(error: RecheckError)

  datatype RunEvent =
    | AuthorizationDenied(run: string, toolUse: Option<string>, code: Code)
    | ToolStarted(run: string, toolUse: Option<string>, operation: AuthorizedOperation)
    | HookAdmitted(run: string, toolUse: Option<string>, operation: AuthorizedOperation)

  /** Where an attempt stands between two awaits. */
  datatype Phase =
    | Starting(modeOverride: Option<PermissionMode>)
    | LookingUp(mode: PermissionMode)
    | Deciding(mode: PermissionMode, found: Option<GrantMatch>)
    | FindingQuestion
    | CreatingQuestion
    | AwaitingAnswer(question: string)
    | LoadingAnswer(question: string, status: InteractionStatus)
    | Judging(question: string, status: InteractionStatus, record: Option<Interaction>)
    | ConfirmingUnderDontAsk(question: string, remember: bool)
    | ConfirmingRemembered(question: string)
    | Authorized(operation: AuthorizedOperation)
    | Refused

  /** The tool-use context travels with the attempt and with its admission. */
  datatype Context = Context(run: Option<string>, toolUse: Option<string>)

  datatype Attempt = Attempt(subject: AuthorizationSubject, op: OperationDescriptor, context: Context, phase: Phase)

  /** A successful admission with the world it was granted in, and whether its start event was stored. */
  datatype Admitted = Admitted(operation: AuthorizedOperation, world: World, toolUse: string, recorded: bool)

  datatype State = State(
    world: World,
    attempts: map<nat, Attempt>,
    admitted: seq<Admitted>,
    events: seq<RunEvent>)

  /** What the interaction service answers, and whether a denial event could be stored; nothing is assumed about it. */
  datatype PortAnswer = PortAnswer(question: Option<string>, status: InteractionStatus, auditStored: bool)

  datatype Transition =
    | ChangeWorld(next: World)
    | ChangeGrants(persistent: set<string>, step: GrantStep)
    | Begin(attempt: nat, subject: AuthorizationSubject, op: OperationDescriptor, context: Context,
            modeOverride: Option<PermissionMode>)
    | Resume(attempt: nat, answer: PortAnswer)
    | Admit(attempt: nat, call: AdmitCall)

  /** What one admission meets outside this model: the analyzer's re-analysis, the action, storage. */
  datatype AdmitCall = AdmitCall(
    context: Context, sensitiveName: string -> bool, analysisUnchanged: bool,
    action: Option<bool>, auditStored: bool, committed: bool)

  // ---------- one segment of an attempt ----------

  datatype Segment = Segment(phase: Phase, denial: Option<Code>)

  function AfterVerdict(v: Verdict, s: AuthorizationSubject, op: OperationDescriptor): Segment {
    match v
    case Allow(_, _, _) => Segment(Authorized(AuthorizedBy(v, s, op)), None)
    case Deny(PLAN_MODE_EFFECT_DENIED) => Segment(Refused, Some(PlanModeEffectDenied))
    case Deny(PERMISSION_INTERACTION_REQUIRED) => Segment(Refused, Some(InteractionDisabled))
    case Ask => Segment(FindingQuestion, None)
  }

  function ApprovedOnce(s: AuthorizationSubject, op: OperationDescriptor, question: string): AuthorizedOperation {
    AuthorizedOperation(s, op, UserOnce, USER_APPROVED_ONCE, None, None, Some(question))
  }

  function Remembered(s: AuthorizationSubject, op: OperationDescriptor, question: string, m: GrantMatch):
      AuthorizedOperation {
    AuthorizedOperation(s, op, Grant, USER_REMEMBERED_GRANT, Some(m.grantId), Some(m.scope), Some(question))
  }

  function AfterAnswer(remember: bool, question: string, s: AuthorizationSubject, op: OperationDescriptor): Segment {
    if remember then Segment(ConfirmingRemembered(question), None)
    else Segment(Authorized(ApprovedOnce(s, op, question)), None)
  }

  /** The synchronous stretch after the answered question was loaded, up to the next await. */
  function Judge(w: World, t: Attempt, question: string, status: InteractionStatus, record: Option<Interaction>):
      Segment {
    var op := t.op;
    if record.None? then Segment(Refused, None)
    else if status != Answered then Segment(Refused, Some(InteractionEnded(status)))
    else if record.value.response.None? then Segment(Refused, None)
    else
      var response := record.value.response.value;
      var mode := ModeOf(w, t.subject.rootSession);
      if response.operationHash != op.operationHash then Segment(Refused, None)
      else if op.risk == High && response.remember then Segment(Refused, None)
      else if mode == PlanMode then Segment(Refused, Some(PlanModeEffectDenied))
      else if mode == DontAsk then
        if op.risk == High then Segment(Refused, Some(InteractionRequired))
        else Segment(ConfirmingUnderDontAsk(question, response.remember), None)
      else AfterAnswer(response.remember, question, t.subject, op)
  }

  function SegmentOf(w: World, t: Attempt, answer: PortAnswer): Segment {
    var s, op := t.subject, t.op;
    match t.phase
    case Starting(modeOverride) =>
      var mode := if modeOverride.Some? then modeOverride.value else ModeOf(w, s.rootSession);
      if op.effects == [SafeInternal] || mode == AutoApprove || op.risk == High || mode == PlanMode
      then AfterVerdict(Decide(mode, None, w, s, op), s, op)
      else Segment(LookingUp(mode), None)
    case LookingUp(mode) => Segment(Deciding(mode, Lookup(w, s, op)), None)
    case Deciding(mode, found) => AfterVerdict(Decide(mode, found, w, s, op), s, op)
    case FindingQuestion =>
      if answer.question.None? then Segment(CreatingQuestion, None)
      else
        var id := answer.question.value;
        if id in w.interactions && w.interactions[id].status != Pending
        then Segment(LoadingAnswer(id, w.interactions[id].status), None)
        else Segment(AwaitingAnswer(id), None)
    case CreatingQuestion =>
      if answer.question.None? then Segment(Refused, None) else Segment(AwaitingAnswer(answer.question.value), None)
    case AwaitingAnswer(id) => Segment(LoadingAnswer(id, answer.status), None)
    case LoadingAnswer(id, status) =>
      Segment(Judging(id, status, if id in w.interactions then Some(w.interactions[id]) else None), None)
    case Judging(id, status, record) => Judge(w, t, id, status, record)
    case ConfirmingUnderDontAsk(id, remember) =>
      if Lookup(w, s, op).None? then Segment(Refused, Some(InteractionRequired)) else AfterAnswer(remember, id, s, op)
    case ConfirmingRemembered(id) =>
      (match Lookup(w, s, op)
       case None => Segment(Refused, None)
       case Some(m) => Segment(Authorized(Remembered(s, op, id, m)), None))
    case Authorized(_) => Segment(t.phase, None)
    case Refused => Segment(t.phase, None)
  }

  /** A denial is recorded only when there is a run to record it on; a failed append is only logged. */
  function Record(events: seq<RunEvent>, context: Context, denial: Option<Code>, stored: bool): seq<RunEvent> {
    if denial.Some? && context.run.Some? && stored
    then events + [AuthorizationDenied(context.run.value, context.toolUse, denial.value)] else events
  }

  // ---------- admission ----------

  datatype AdmitOutcome = Started | AuthorizationRefused | ActionRejected | StorageFailed

  predicate DescriptorInvariant(op: OperationDescriptor, sensitiveName: string -> bool) {
    && (forall i :: 0 <= i < |op.resources| ==> NUL !in op.resources[i].value)
    && (forall i :: 0 <= i < |op.environment| ==> !sensitiveName(op.environment[i]))
  }

  function ToolUseOr(context: Context, toolName: string): string {
    if context.toolUse.Some? then context.toolUse.value else toolName
  }

  function StartEvent(a: AuthorizedOperation, context: Context): RunEvent
    requires context.run.Some?
  {
    if a.descriptor.analyzer == HookV1 then HookAdmitted(context.run.value, context.toolUse, a)
    else ToolStarted(context.run.value, context.toolUse, a)
  }

  datatype AdmitEffect = AdmitEffect(outcome: AdmitOutcome, denial: Option<Code>, started: Option<RunEvent>)

  /** The outcome of one admission and the single event it leaves behind, if any; only a hook needs its event stored. */
  function AdmitResult(w: World, a: AuthorizedOperation, call: AdmitCall): AdmitEffect {
    var toolUse := ToolUseOr(call.context, a.descriptor.toolName);
    if call.context.run.None? then AdmitEffect(AuthorizationRefused, None, None)
    else if !DescriptorInvariant(a.descriptor, call.sensitiveName) || !call.analysisUnchanged then
      AdmitEffect(AuthorizationRefused, Some(DynamicRecheckDenied), None)
    else if FinalRecheck(w, a, toolUse).Err? then
      AdmitEffect(AuthorizationRefused, Some(FinalRecheckDenied(FinalRecheck(w, a, toolUse).error)), None)
    else if call.action == Some(false) then AdmitEffect(ActionRejected, None, None)
    else if (a.descriptor.analyzer == HookV1 && !call.auditStored) || !call.committed then
      AdmitEffect(StorageFailed, None, None)
    else AdmitEffect(Started, None, if call.auditStored then Some(StartEvent(a, call.context)) else None)
  }

  function AdmitStep(s: State, a: AuthorizedOperation, call: AdmitCall): State {
    var effect := AdmitResult(s.world, a, call);
    if effect.outcome == Started then
      var toolUse := ToolUseOr(call.context, a.descriptor.toolName);
      s.(admitted := s.admitted + [Admitted(a, s.world, toolUse, effect.started.Some?)],
         events := if effect.started.Some? then s.events + [effect.started.value] else s.events)
    else s.(events := Record(s.events, call.context, effect.denial, call.auditStored))
  }

  // ---------- the transition system ----------

  function Next(s: State, t: Transition): State {
    match t
    case ChangeWorld(next) => s.(world := next.(grants := s.world.grants))
    case ChangeGrants(persistent, step) => s.(world := s.world.(grants := GrantNext(s.world.grants, persistent, step)))
    case Begin(id, subject, op, context, modeOverride) =>
      if id in s.attempts then s
      else s.(attempts := s.attempts[id := Attempt(subject, op, context, Starting(modeOverride))])
    case Resume(id, answer) =>
      if id !in s.attempts then s
      else
        var attempt := s.attempts[id];
        var segment := SegmentOf(s.world, attempt, answer);
        s.(attempts := s.attempts[id := attempt.(phase := segment.phase)],
           events := Record(s.events, attempt.context, segment.denial, answer.auditStored))
    case Admit(id, call) =>
      if id !in s.attempts || !s.attempts[id].phase.Authorized? then s
      else AdmitStep(s, s.attempts[id].phase.operation, call)
  }

  function Run(s: State, steps: seq<Transition>): State {
    if steps == [] then s else Next(Run(s, steps[..|steps| - 1]), steps[|steps| - 1])
  }

  predicate Initial(s: State) {
    s.attempts == map[] && s.admitted == [] && s.events == [] && s.world.grants == []
  }

  // ---------- what every run keeps ----------

  /** How an authorized operation can have come about, whatever happened in between. */
  predicate Issued(a: AuthorizedOperation) {
    && (a.source == Grant <==> a.reason in {GRANT_MATCH, USER_REMEMBERED_GRANT})
    && (a.source == UserOnce <==> a.reason == USER_APPROVED_ONCE)
    && (a.source == Mode <==> a.reason in {AUTO_APPROVE, SAFE_READ_AUTO, ACCEPT_EDITS})
    && a.source != DiagnosticSource.Invariant
    && (a.grantId.Some? <==> a.source == Grant)
    && ((a.descriptor.risk == High && a.descriptor.effects != [SafeInternal]) ==>
          a.reason in {AUTO_APPROVE, USER_APPROVED_ONCE})
  }

  predicate AttemptValid(t: Attempt) {
    && (t.phase.Authorized? ==> Issued(t.phase.operation) && t.phase.operation.subject == t.subject
                                && t.phase.operation.descriptor == t.op)
    && (t.phase.ConfirmingRemembered? || t.phase.ConfirmingUnderDontAsk? ==> t.op.risk != High)
  }

  predicate ReadOrInternal(op: OperationDescriptor) { op.effects == [SafeInternal] || op.effects == [ReadResource] }

  /** What the world looked like at the instant a tool was allowed to start. */
  ghost predicate AdmissionSafe(d: Admitted) {
    var a, w := d.operation, d.world;
    var s, op := a.subject, a.descriptor;
    var mode := ModeOf(w, s.rootSession);
    && AcceptsTools(w.runs, s.currentRun)
    && (mode == PlanMode ==> ReadOrInternal(op))
    && (a.grantId.Some? ==> exists i ::
          && 0 <= i < |w.grants| && w.grants[i].id == a.grantId.value
          && Eligible(w.grants[i], Query(w.now, s, op, w.runs, w.printed))
          && (w.grants[i].scope == RunScope ==> w.grants[i].actorRun == Some(s.currentRun)))
    && (a.source == UserOnce ==> AnsweredOnce(w, a.interactionId, s, op, d.toolUse))
    && (a.reason in {AUTO_APPROVE, ACCEPT_EDITS} ==> CurrentPolicyAllows(w, s, op, mode))
    && (a.reason in {SYSTEM_SCRATCHPAD_SCOPE, PRIVATE_TMP_FILE_SCOPE, PROJECT_FILE_SCOPE} ==>
         s.authorizationRoot in w.trusted)
    && (op.risk == High && op.effects != [SafeInternal] ==>
          && a.grantId.None?
          && (AnsweredOnce(w, a.interactionId, s, op, d.toolUse) || mode == AutoApprove))
    && forall i :: 0 <= i < |op.resources| ==> NUL !in op.resources[i].value
  }

  /** The start events, oldest first: the audit trail of admissions. */
  function StartEvents(events: seq<RunEvent>): seq<AuthorizedOperation> {
    if events == [] then []
    else
      var rest, last := StartEvents(events[..|events| - 1]), events[|events| - 1];
      if last.AuthorizationDenied? then rest else rest + [last.operation]
  }

  /** The admissions whose start event was stored, oldest first. */
  function RecordedOperations(admitted: seq<Admitted>): seq<AuthorizedOperation> {
    if admitted == [] then []
    else
      var rest, last := RecordedOperations(admitted[..|admitted| - 1]), admitted[|admitted| - 1];
      if last.recorded then rest + [last.operation] else rest
  }

  /** Each admission was safe, and a hook's has its event. */
  ghost predicate AllSafe(admitted: seq<Admitted>) {
    forall i :: 0 <= i < |admitted| ==>
      AdmissionSafe(admitted[i]) && (admitted[i].operation.descriptor.analyzer == HookV1 ==> admitted[i].recorded)
  }

  ghost predicate StateValid(s: State) {
    && TableValid(s.world.grants)
    && (forall id :: id in s.attempts ==> AttemptValid(s.attempts[id]))
    && AllSafe(s.admitted)
    && StartEvents(s.events) == RecordedOperations(s.admitted)
  }

  lemma VerdictKeepsValid(w: World, t: Attempt, mode: PermissionMode, found: Option<GrantMatch>)
    ensures AttemptValid(t.(phase := AfterVerdict(Decide(mode, found, w, t.subject, t.op), t.subject, t.op).phase))
  {
  }

  lemma JudgeKeepsValid(w: World, t: Attempt, question: string, status: InteractionStatus, record: Option<Interaction>)
    ensures AttemptValid(t.(phase := Judge(w, t, question, status, record).phase))
  {
  }

  lemma SegmentKeepsValid(w: World, t: Attempt, answer: PortAnswer)
    requires AttemptValid(t)
    ensures AttemptValid(t.(phase := SegmentOf(w, t, answer).phase))
  {
    match t.phase
    case Starting(modeOverride) =>
      var mode := if modeOverride.Some? then modeOverride.value else ModeOf(w, t.subject.rootSession);
      VerdictKeepsValid(w, t, mode, None);
    case Deciding(mode, found) => VerdictKeepsValid(w, t, mode, found);
    case Judging(id, status, record) => JudgeKeepsValid(w, t, id, status, record);
    case _ =>
  }

  lemma RecordIsNoStart(events: seq<RunEvent>, context: Context, denial: Option<Code>, stored: bool)
    ensures StartEvents(Record(events, context, denial, stored)) == StartEvents(events)
  {
    if denial.Some? && context.run.Some? && stored {
      var event := AuthorizationDenied(context.run.value, context.toolUse, denial.value);
      assert (events + [event])[..|events|] == events;
    }
  }

  lemma PlanAdmitsReadsOnly(w: World, s: AuthorizationSubject, op: OperationDescriptor)
    requires CurrentPolicyAllows(w, s, op, PlanMode)
    ensures ReadOrInternal(op)
  {
  }

  lemma PlanAllowsReadsOnly(mode: PermissionMode, found: Option<GrantMatch>, w: World, s: AuthorizationSubject,
                            op: OperationDescriptor)
    ensures mode == PlanMode && Decide(mode, found, w, s, op).Allow? ==> ReadOrInternal(op)
    ensures Decide(mode, found, w, s, op).Allow? && Decide(mode, found, w, s, op).grant.None? ==>
              CurrentPolicyAllows(w, s, op, mode)
  {
    if Decide(mode, found, w, s, op).Allow? && Decide(mode, found, w, s, op).reason != GRANT_MATCH {
      AllowWithoutGrant(mode, found, w, s, op);
    }
  }

  /** A grant that passed the recheck is one of the table's eligible rows, and a RUN row the run's own. */
  lemma RecheckedGrantIsEligible(w: World, s: AuthorizationSubject, op: OperationDescriptor)
    requires TableValid(w.grants)
    ensures Lookup(w, s, op).Some? ==> exists i ::
          && 0 <= i < |w.grants| && w.grants[i].id == Lookup(w, s, op).value.grantId
          && Eligible(w.grants[i], Query(w.now, s, op, w.runs, w.printed))
          && (w.grants[i].scope == RunScope ==> w.grants[i].actorRun == Some(s.currentRun))
  {
    var q := Query(w.now, s, op, w.runs, w.printed);
    var best := BestIndex(w.grants, |w.grants|, q);
    if best.Some? && w.grants[best.value].scope == RunScope { RunGrantsAreDirect(w.grants, best.value, q); }
  }

  /** A passed recheck is exactly what a safe admission needs. */
  lemma AdmittedIsSafe(w: World, a: AuthorizedOperation, call: AdmitCall)
    requires TableValid(w.grants) && Issued(a) && AdmitResult(w, a, call).outcome == Started
    ensures AdmissionSafe(Admitted(a, w, ToolUseOr(call.context, a.descriptor.toolName), call.auditStored))
  {
    var s, op := a.subject, a.descriptor;
    if ModeOf(w, s.rootSession) == PlanMode { PlanAdmitsReadsOnly(w, s, op); }
    if a.grantId.Some? { RecheckedGrantIsEligible(w, s, op); }
  }

  lemma SafeGrows(admitted: seq<Admitted>, d: Admitted)
    requires AllSafe(admitted) && AdmissionSafe(d) && (d.operation.descriptor.analyzer == HookV1 ==> d.recorded)
    ensures AllSafe(admitted + [d])
  {
  }

  /** One more admission at the end of both histories. */
  lemma AuditGrows(events: seq<RunEvent>, event: RunEvent, admitted: seq<Admitted>, d: Admitted)
    ensures !event.AuthorizationDenied? ==> StartEvents(events + [event]) == StartEvents(events) + [event.operation]
    ensures RecordedOperations(admitted + [d]) ==
            if d.recorded then RecordedOperations(admitted) + [d.operation] else RecordedOperations(admitted)
  {
    assert (events + [event])[..|events|] == events;
    assert (admitted + [d])[..|admitted|] == admitted;
  }

  lemma AdmitKeepsValid(s: State, a: AuthorizedOperation, call: AdmitCall)
    requires StateValid(s) && Issued(a)
    ensures StateValid(AdmitStep(s, a, call))
  {
    var effect := AdmitResult(s.world, a, call);
    if effect.outcome == Started {
      var d := Admitted(a, s.world, ToolUseOr(call.context, a.descriptor.toolName), call.auditStored);
      AdmittedIsSafe(s.world, a, call);
      SafeGrows(s.admitted, d);
      AuditGrows(s.events, StartEvent(a, call.context), s.admitted, d);
    } else {
      RecordIsNoStart(s.events, call.context, effect.denial, call.auditStored);
    }
  }

  lemma StepKeepsValid(s: State, t: Transition)
    requires StateValid(s)
    ensures StateValid(Next(s, t))
  {
    match t
    case ChangeWorld(_) =>
    case ChangeGrants(persistent, step) => GrantStepKeepsValid(s.world.grants, persistent, step);
    case Begin(_, _, _, _, _) =>
    case Resume(id, answer) =>
      if id in s.attempts {
        SegmentKeepsValid(s.world, s.attempts[id], answer);
        RecordIsNoStart(s.events, s.attempts[id].context, SegmentOf(s.world, s.attempts[id], answer).denial,
                        answer.auditStored);
      }
    case Admit(id, call) =>
      if id in s.attempts && s.attempts[id].phase.Authorized? {
        AdmitKeepsValid(s, s.attempts[id].phase.operation, call);
      }
  }

  /**
   Over every interleaving of mode, trust, run, grant and interaction changes with any number
   of attempts and admissions: each admission was safe at its own instant, the start events
   are admissions in their order, and no hook was admitted without its event.
   */
  lemma {:induction false} EveryAdmissionIsSafe(init: State, steps: seq<Transition>)
    requires Initial(init)
    ensures StateValid(Run(init, steps))
  {
    if steps == [] {
      assert RecordedOperations(init.admitted) == [];
    } else {
      EveryAdmissionIsSafe(init, steps[..|steps| - 1]);
      StepKeepsValid(Run(init, steps[..|steps| - 1]), steps[|steps| - 1]);
    }
  }

  /** A HIGH operation never starts on a remembered grant: it was answered for once, or everything is approved now. */
  lemma HighNeverRestsOnGrant(init: State, steps: seq<Transition>, i: nat)
    requires Initial(init) && i < |Run(init, steps).admitted|
    requires Run(init, steps).admitted[i].operation.descriptor.risk == High
    requires Run(init, steps).admitted[i].operation.descriptor.effects != [SafeInternal]
    ensures var d := Run(init, steps).admitted[i];
      && d.operation.grantId.None?
      && (|| ModeOf(d.world, d.operation.subject.rootSession) == AutoApprove
          || AnsweredOnce(d.world, d.operation.interactionId, d.operation.subject, d.operation.descriptor, d.toolUse))
  {
    EveryAdmissionIsSafe(init, steps);
  }

  /**
   What one admission leaves behind: a start event exactly for a stored start, a denial exactly for
   a stored refusal on a run, and nothing for a rejected action, failed storage or a missing run.
   */
  lemma AdmissionLeavesItsTrace(s: State, a: AuthorizedOperation, call: AdmitCall)
    ensures var outcome, after := AdmitResult(s.world, a, call).outcome, AdmitStep(s, a, call);
      && s.events <= after.events && |after.events| <= |s.events| + 1 && after.attempts == s.attempts
      && (outcome == Started <==> after.admitted != s.admitted)
      && (outcome in {ActionRejected, StorageFailed} || !call.auditStored || call.context.run.None? ==>
            after.events == s.events)
      && (after.events != s.events ==>
            && after.events[|s.events|].run == call.context.run.value
            && (after.events[|s.events|].AuthorizationDenied? <==> outcome == AuthorizationRefused)
            && (after.events[|s.events|].HookAdmitted? <==> outcome == Started && a.descriptor.analyzer == HookV1))
      && (outcome in {Started, AuthorizationRefused} && call.auditStored && call.context.run.Some? ==>
            after.events != s.events)
  {
    var after := AdmitStep(s, a, call);
    assert |s.admitted + [Admitted(a, s.world, "", true)]| == |s.admitted| + 1;
    if after.admitted == s.admitted { assert |after.admitted| == |s.admitted|; }
  }

  /** The event of a refusal says what refused: the analysis, or the recheck and why. */
  lemma RefusalNamesItsCause(s: State, a: AuthorizedOperation, call: AdmitCall)
    requires call.context.run.Some? && call.auditStored
    requires AdmitResult(s.world, a, call).outcome == AuthorizationRefused
    ensures var recheck := FinalRecheck(s.world, a, ToolUseOr(call.context, a.descriptor.toolName));
      exists code ::
        && AdmitStep(s, a, call).events ==
           s.events + [AuthorizationDenied(call.context.run.value, call.context.toolUse, code)]
        && (code == DynamicRecheckDenied
            || (call.analysisUnchanged && recheck.Err? && code == FinalRecheckDenied(recheck.error)))
        && (call.analysisUnchanged && (forall r :: r in a.descriptor.resources ==> NUL !in r.value)
            && (forall name :: name in a.descriptor.environment ==> !call.sensitiveName(name)) ==>
              code != DynamicRecheckDenied)
  {
    var code := AdmitResult(s.world, a, call).denial.value;
    assert AdmitStep(s, a, call).events ==
      s.events + [AuthorizationDenied(call.context.run.value, call.context.toolUse, code)];
  }

  /** What an admission needs besides a passed recheck. */
  predicate CallHolds(op: OperationDescriptor, call: AdmitCall) {
    && call.context.run.Some? && call.analysisUnchanged && call.committed && call.action != Some(false)
    && (op.analyzer == HookV1 ==> call.auditStored)
    && (forall r :: r in op.resources ==> NUL !in r.value)
    && (forall name :: name in op.environment ==> !call.sensitiveName(name))
  }

  /** An admission starts its tool exactly when nothing about the call stands in the way and the recheck passes. */
  lemma AdmissionStartsExactly(s: State, a: AuthorizedOperation, call: AdmitCall)
    ensures var toolUse := ToolUseOr(call.context, a.descriptor.toolName);
      AdmitStep(s, a, call).admitted == s.admitted + [Admitted(a, s.world, toolUse, call.auditStored)] <==>
        CallHolds(a.descriptor, call) && FinalRecheck(s.world, a, toolUse).Ok?
  {
    assert forall i :: 0 <= i < |a.descriptor.resources| ==> a.descriptor.resources[i] in a.descriptor.resources;
    assert forall i :: 0 <= i < |a.descriptor.environment| ==> a.descriptor.environment[i] in a.descriptor.environment;
    assert |AdmitStep(s, a, call).admitted| == |s.admitted| + 1 <==> AdmitResult(s.world, a, call).outcome == Started;
  }

  // ---------- the gateway ----------

  /** The only door to a tool: recheck, action and start event share one write transaction. */
  class ToolExecutionGateway {
    var state: State

    constructor (state: State)
      ensures this.state == state
    {
      this.state := state;
    }

    /** The chain as the source writes it: early returns in a fixed order. */
    static method AuthorizePrepared(mode: PermissionMode, found: Option<GrantMatch>, w: World,
                                    s: AuthorizationSubject, op: OperationDescriptor) returns (v: Verdict)
      ensures v == Decide(mode, found, w, s, op)
      ensures v.Allow? && v.grant.None? ==> CurrentPolicyAllows(w, s, op, mode)
      ensures v.Allow? && v.grant.Some? ==> mode != PlanMode && v.grant == found && op.risk != High
      ensures op.risk == High && op.effects != [SafeInternal] ==> (v.Allow? <==> mode == AutoApprove)
      ensures mode == PlanMode && v.Allow? ==> ReadOrInternal(op)
      ensures v.Deny? ==> mode in {PlanMode, DontAsk}
      ensures v.Ask? ==> mode in {DefaultMode, AcceptEdits}
    {
      PlanAllowsReadsOnly(mode, found, w, s, op);
      if op.effects == [SafeInternal] { return Allow(Policy, BUILTIN_SAFE, None); }
      if mode == AutoApprove { return Allow(Mode, AUTO_APPROVE, None); }
      if op.risk == High {
        if mode == PlanMode { return Deny(PLAN_MODE_EFFECT_DENIED); }
        if mode == DontAsk { return Deny(PERMISSION_INTERACTION_REQUIRED); }
        return Ask;
      }
      if mode != PlanMode && found.Some? { return Allow(Grant, GRANT_MATCH, found); }
      var scratchpadRead := op.effects == [ReadResource];
      if scratchpadRead && TrustedScratchpad(w, s, op) { return Allow(Policy, SYSTEM_SCRATCHPAD_SCOPE, None); }
      var privateTmpRead := op.effects == [ReadResource];
      if privateTmpRead && TrustedPrivateTmp(w, s, op) { return Allow(Policy, PRIVATE_TMP_FILE_SCOPE, None); }
      var safeRead := op.analyzer == FileV1 && op.risk == Safe && op.effects == [ReadResource];
      if safeRead { return Allow(Mode, SAFE_READ_AUTO, None); }
      if mode == PlanMode { return Deny(PLAN_MODE_EFFECT_DENIED); }
      if !scratchpadRead && TrustedScratchpad(w, s, op) { return Allow(Policy, SYSTEM_SCRATCHPAD_SCOPE, None); }
      if !privateTmpRead && TrustedPrivateTmp(w, s, op) { return Allow(Policy, PRIVATE_TMP_FILE_SCOPE, None); }
      if TrustedProjectWrite(w, s, op) { return Allow(Policy, PROJECT_FILE_SCOPE, None); }
      if mode == DontAsk { return Deny(PERMISSION_INTERACTION_REQUIRED); }
      if AcceptsEdits(mode, op) { return Allow(Mode, ACCEPT_EDITS, None); }
      return Ask;
    }

    method RecordFinalDenial(context: Context, code: Code, stored: bool)
      modifies this
      ensures state == old(state).(events := Record(old(state).events, context, Some(code), stored))
    {
      if context.run.Some? && stored {
        state := state.(events := state.events + [AuthorizationDenied(context.run.value, context.toolUse, code)]);
      }
    }

    /** Only an authorization denial met on a run is recorded; a rejected action or failed storage leaves no trace. */
    method AdmitWith(a: AuthorizedOperation, call: AdmitCall) returns (outcome: AdmitOutcome)
      modifies this
      ensures state == AdmitStep(old(state), a, call)
      ensures outcome == AdmitResult(old(state).world, a, call).outcome
      ensures outcome in {ActionRejected, StorageFailed} ==> state == old(state)
    {
      if call.context.run.None? {
        return AuthorizationRefused;
      }
      if !DescriptorInvariant(a.descriptor, call.sensitiveName) || !call.analysisUnchanged {
        RecordFinalDenial(call.context, DynamicRecheckDenied, call.auditStored);
        return AuthorizationRefused;
      }
      var toolUse := ToolUseOr(call.context, a.descriptor.toolName);
      var recheck := FinalRecheck(state.world, a, toolUse);
      if recheck.Err? {
        RecordFinalDenial(call.context, FinalRecheckDenied(recheck.error), call.auditStored);
        return AuthorizationRefused;
      }
      if call.action == Some(false) {
        return ActionRejected;
      }
      if a.descriptor.analyzer == HookV1 && !call.auditStored {
        return StorageFailed;
      }
      var tx := state.(admitted := state.admitted + [Admitted(a, state.world, toolUse, call.auditStored)]);
      if call.auditStored {
        tx := tx.(events := tx.events + [StartEvent(a, call.context)]);
      }
      if !call.committed {
        return StorageFailed;
      }
      state := tx;
      return Started;
    }
  }
}
