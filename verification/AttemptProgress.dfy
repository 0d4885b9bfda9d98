/**
 Where an authorization attempt leads (crates/zk-authz/src/service.rs): from its start to a verdict,
 from a verdict to a question, from the answer to an authorization, and from there to a started tool.
 */
module AttemptProgress {
  import opened Wrappers
  import opened AuthzModel
  import opened Grants
  import opened AuthorizationPolicy
  import opened Admission

  function Resumed(w: World, t: Attempt, answer: PortAnswer): Attempt {
    t.(phase := SegmentOf(w, t, answer).phase)
  }

  /** A verdict carried out: the operation as allowed, a refusal, or the search for a question. */
  predicate Concludes(v: Verdict, t: Attempt) {
    match v
    case Allow(source, reason, None) =>
      t.phase == Authorized(AuthorizedOperation(t.subject, t.op, source, reason, None, None, None))
    case Allow(source, reason, Some(m)) =>
      t.phase == Authorized(AuthorizedOperation(t.subject, t.op, source, reason, Some(m.grantId), Some(m.scope), None))
    case Deny(_) => t.phase == Refused
    case Ask => t.phase == FindingQuestion
  }

  /** The modes and operations for which no grant is looked up. */
  predicate LooksNothingUp(mode: PermissionMode, op: OperationDescriptor) {
    op.effects == [SafeInternal] || op.risk == High || mode == AutoApprove || mode == PlanMode
  }

  function StartMode(w: World, t: Attempt): PermissionMode
    requires t.phase.Starting?
  {
    if t.phase.modeOverride.Some? then t.phase.modeOverride.value else ModeOf(w, t.subject.rootSession)
  }

  /**
   An attempt concludes with the verdict of the mode that was read at its start: at once, or on the
   grant found at the second await, whatever else changes in between.
   */
  lemma AttemptConcludes(w1: World, w2: World, w3: World, t: Attempt, a: PortAnswer, b: PortAnswer, c: PortAnswer)
    requires t.phase.Starting?
    ensures LooksNothingUp(StartMode(w1, t), t.op) ==>
              Concludes(Decide(StartMode(w1, t), None, w1, t.subject, t.op), Resumed(w1, t, a))
    ensures !LooksNothingUp(StartMode(w1, t), t.op) ==>
              Concludes(Decide(StartMode(w1, t), Lookup(w2, t.subject, t.op), w3, t.subject, t.op),
                        Resumed(w3, Resumed(w2, Resumed(w1, t, a), b), c))
  {
  }

  /** A denied attempt says why. */
  lemma DenialIsReported(w: World, t: Attempt, a: PortAnswer)
    requires (t.phase.Starting? && LooksNothingUp(StartMode(w, t), t.op)) || t.phase.Deciding?
    ensures var mode := if t.phase.Starting? then StartMode(w, t) else t.phase.mode;
      SegmentOf(w, t, a).denial ==
        if SegmentOf(w, t, a).phase != Refused then None
        else if mode == PlanMode then Some(PlanModeEffectDenied) else Some(InteractionDisabled)
  {
  }

  /** A reported denial is recorded on the attempt's run, when it has one and the record can be stored. */
  lemma DenialIsRecorded(s: State, id: nat, a: PortAnswer)
    requires id in s.attempts
    ensures var t, denial := s.attempts[id], SegmentOf(s.world, s.attempts[id], a).denial;
      Next(s, Resume(id, a)).events ==
        if denial.Some? && t.context.run.Some? && a.auditStored
        then s.events + [AuthorizationDenied(t.context.run.value, t.context.toolUse, denial.value)] else s.events
  {
  }

  // ---------- questions ----------

  /** A question that was answered already is loaded and judged as its row stands. */
  lemma AnsweredQuestionIsJudged(w1: World, w2: World, t: Attempt, q: string, a: PortAnswer, b: PortAnswer)
    requires t.phase == FindingQuestion && a.question == Some(q)
    requires q in w1.interactions && w1.interactions[q].status != Pending
    ensures Resumed(w2, Resumed(w1, t, a), b).phase ==
            Judging(q, w1.interactions[q].status,
                    if q in w2.interactions then Some(w2.interactions[q]) else None)
  {
  }

  /** Without one, a question is created and its answer awaited; then that is judged. */
  lemma NewQuestionIsJudged(w: World, t: Attempt, q: string, none: PortAnswer, made: PortAnswer, answered: PortAnswer)
    requires t.phase == FindingQuestion && none.question == None && made.question == Some(q)
    ensures var created := Resumed(w, t, none);
      var awaiting := Resumed(w, created, made);
      var loading := Resumed(w, awaiting, answered);
      && awaiting.phase == AwaitingAnswer(q) && loading.phase == LoadingAnswer(q, answered.status)
      && Resumed(w, loading, answered).phase ==
         Judging(q, answered.status, if q in w.interactions then Some(w.interactions[q]) else None)
  {
  }

  /** The modes in which an answer is taken as it is. */
  predicate TakesAnswers(mode: PermissionMode) { mode in {DefaultMode, AcceptEdits, AutoApprove} }

  /** What an answer leads to. */
  lemma AnswerIsJudgedExactly(w: World, t: Attempt, q: string, i: Interaction, a: PortAnswer)
    requires t.phase == Judging(q, Answered, Some(i)) && i.response.Some?
    ensures var r, mode, after := i.response.value, ModeOf(w, t.subject.rootSession), SegmentOf(w, t, a);
      && (after.phase == Authorized(ApprovedOnce(t.subject, t.op, q)) <==>
            r.operationHash == t.op.operationHash && !r.remember && TakesAnswers(mode))
      && (after.phase == ConfirmingRemembered(q) <==>
            r.operationHash == t.op.operationHash && r.remember && t.op.risk != High && TakesAnswers(mode))
      && (after.phase == ConfirmingUnderDontAsk(q, r.remember) <==>
            && r.operationHash == t.op.operationHash && mode == DontAsk && t.op.risk != High)
      && (after.denial == Some(PlanModeEffectDenied) <==>
            && r.operationHash == t.op.operationHash && mode == PlanMode && !(t.op.risk == High && r.remember))
      && (after.phase == Refused || after.denial.None?)
      && after.phase in {Authorized(ApprovedOnce(t.subject, t.op, q)), ConfirmingRemembered(q),
                         ConfirmingUnderDontAsk(q, r.remember), Refused}
  {
  }

  lemma UnansweredIsRefused(w: World, t: Attempt, q: string, status: InteractionStatus, record: Option<Interaction>,
                            a: PortAnswer)
    requires t.phase == Judging(q, status, record)
    requires record.None? || record.value.response.None? || status != Answered
    ensures SegmentOf(w, t, a).phase == Refused
    ensures record.Some? && status != Answered ==> SegmentOf(w, t, a).denial == Some(InteractionEnded(status))
  {
  }

  /** A remembered answer is authorized by the grant that now answers the lookup, and by nothing else. */
  lemma RememberedIsConfirmedExactly(w: World, t: Attempt, q: string, a: PortAnswer)
    requires t.phase in {ConfirmingRemembered(q), ConfirmingUnderDontAsk(q, true), ConfirmingUnderDontAsk(q, false)}
    ensures var found, after := Lookup(w, t.subject, t.op), SegmentOf(w, t, a);
      && (found.None? ==> after.phase == Refused)
      && (found.Some? ==>
            after.phase ==
              if t.phase == ConfirmingUnderDontAsk(q, true) then ConfirmingRemembered(q)
              else if t.phase == ConfirmingUnderDontAsk(q, false) then Authorized(ApprovedOnce(t.subject, t.op, q))
              else Authorized(AuthorizedOperation(t.subject, t.op, Grant, USER_REMEMBERED_GRANT,
                                                  Some(found.value.grantId), Some(found.value.scope), Some(q))))
  {
  }

  // ---------- from the answer to the tool ----------

  lemma RunOneMore(s: State, steps: seq<Transition>, t: Transition)
    ensures Run(s, steps + [t]) == Next(Run(s, steps), t)
  {
    assert (steps + [t])[..|steps|] == steps;
  }

  lemma TwoSteps(s: State, a: Transition, b: Transition)
    ensures Run(s, [a, b]) == Next(Next(s, a), b)
  {
    RunOneMore(s, [], a);
    RunOneMore(s, [a], b);
    assert [] + [a] == [a] && [a] + [b] == [a, b];
  }

  lemma FourSteps(s: State, a: Transition, b: Transition, c: Transition, d: Transition)
    ensures Run(s, [a, b, c]) == Next(Next(Next(s, a), b), c)
    ensures Run(s, [a, b, c, d]) == Next(Next(Next(Next(s, a), b), c), d)
  {
    TwoSteps(s, a, b);
    RunOneMore(s, [a, b], c);
    RunOneMore(s, [a, b, c], d);
    assert [a, b] + [c] == [a, b, c] && [a, b, c] + [d] == [a, b, c, d];
  }

  lemma ResumeMoves(s: State, id: nat, a: PortAnswer)
    requires id in s.attempts
    ensures var after := Next(s, Resume(id, a));
      && id in after.attempts && after.attempts[id] == Resumed(s.world, s.attempts[id], a)
      && after.world == s.world && after.admitted == s.admitted
  {
  }

  lemma AdmitTries(s: State, id: nat, a: AuthorizedOperation, call: AdmitCall)
    requires id in s.attempts && s.attempts[id].phase == Authorized(a)
    ensures Next(s, Admit(id, call)) == AdmitStep(s, a, call)
  {
  }

  /**
   An answered question whose answer is for this once: the tool starts exactly when the row approves
   this operation and tool use, the run accepts tools, and the call itself is in order.
   */
  lemma OnceAnswerStartsExactly(s: State, id: nat, q: string, a: PortAnswer, b: PortAnswer, c: PortAnswer,
                               call: AdmitCall)
    requires id in s.attempts && s.attempts[id].phase == FindingQuestion && a.question == Some(q)
    requires q in s.world.interactions && s.world.interactions[q].status == Answered
    requires s.world.interactions[q].response.Some? && !s.world.interactions[q].response.value.remember
    requires TakesAnswers(ModeOf(s.world, s.attempts[id].subject.rootSession))
    ensures var t := s.attempts[id];
      var toolUse := ToolUseOr(call.context, t.op.toolName);
      var d := Admitted(ApprovedOnce(t.subject, t.op, q), s.world, toolUse, call.auditStored);
      Run(s, [Resume(id, a), Resume(id, b), Resume(id, c), Admit(id, call)]).admitted == s.admitted + [d] <==>
        && RowApproves(s.world.interactions[q], t.subject, t.op, toolUse)
        && AcceptsTools(s.world.runs, t.subject.currentRun) && CallHolds(t.op, call)
  {
    var t, i := s.attempts[id], s.world.interactions[q];
    var toolUse := ToolUseOr(call.context, t.op.toolName);
    FourSteps(s, Resume(id, a), Resume(id, b), Resume(id, c), Admit(id, call));
    ResumeMoves(s, id, a);
    var s1 := Next(s, Resume(id, a));
    ResumeMoves(s1, id, b);
    var s2 := Next(s1, Resume(id, b));
    ResumeMoves(s2, id, c);
    var s3 := Next(s2, Resume(id, c));
    AnsweredQuestionIsJudged(s.world, s.world, t, q, a, b);
    AnswerIsJudgedExactly(s.world, s2.attempts[id], q, i, c);
    if i.response.value.operationHash == t.op.operationHash {
      AdmitTries(s3, id, ApprovedOnce(t.subject, t.op, q), call);
      AdmissionStartsExactly(s3, ApprovedOnce(t.subject, t.op, q), call);
      OnceRecheckExactly(s.world, t.subject, t.op, q, toolUse);
    } else {
      assert Next(s3, Admit(id, call)).admitted == s.admitted;
      assert |s.admitted + [Admitted(ApprovedOnce(t.subject, t.op, q), s.world, toolUse, call.auditStored)]| ==
        |s.admitted| + 1;
    }
  }

  // ---------- without a question ----------

  /** A grant that answers the lookup starts the tool, unless the session is in PLAN or the call is not in order. */
  lemma GrantedAttemptStartsExactly(s: State, id: nat, a: PortAnswer, b: PortAnswer, c: PortAnswer, call: AdmitCall)
    requires id in s.attempts && s.attempts[id].phase.Starting?
    requires Interactive(StartMode(s.world, s.attempts[id]))
    requires s.attempts[id].op.risk != High && s.attempts[id].op.effects != [SafeInternal]
    requires Lookup(s.world, s.attempts[id].subject, s.attempts[id].op).Some?
    ensures var t := s.attempts[id];
      var m := Lookup(s.world, t.subject, t.op).value;
      var granted := AuthorizedOperation(t.subject, t.op, Grant, GRANT_MATCH, Some(m.grantId), Some(m.scope), None);
      && id in Run(s, [Resume(id, a), Resume(id, b), Resume(id, c)]).attempts
      && Run(s, [Resume(id, a), Resume(id, b), Resume(id, c)]).attempts[id].phase == Authorized(granted)
      && (Run(s, [Resume(id, a), Resume(id, b), Resume(id, c), Admit(id, call)]).admitted ==
            s.admitted + [Admitted(granted, s.world, ToolUseOr(call.context, t.op.toolName), call.auditStored)] <==>
            StillAdmissible(s.world, t.subject, t.op) && CallHolds(t.op, call))
  {
    var t := s.attempts[id];
    var m := Lookup(s.world, t.subject, t.op).value;
    var granted := AuthorizedOperation(t.subject, t.op, Grant, GRANT_MATCH, Some(m.grantId), Some(m.scope), None);
    FourSteps(s, Resume(id, a), Resume(id, b), Resume(id, c), Admit(id, call));
    ResumeMoves(s, id, a);
    var s1 := Next(s, Resume(id, a));
    ResumeMoves(s1, id, b);
    var s2 := Next(s1, Resume(id, b));
    ResumeMoves(s2, id, c);
    var s3 := Next(s2, Resume(id, c));
    AttemptConcludes(s.world, s.world, s.world, t, a, b, c);
    GrantDecidesExactly(StartMode(s.world, t), m, s.world, t.subject, t.op);
    AdmitTries(s3, id, granted, call);
    AdmissionStartsExactly(s3, granted, call);
    GrantRecheckExactly(s.world, granted, ToolUseOr(call.context, t.op.toolName));
  }

  /**
   A remembered decision is not asked for again: after its creation and any later history, while its
   row is neither revoked nor expired nor, for a run, its root ended, an attempt for the same
   operation is authorized by a grant at the third await, whatever the port would have answered.
   */
  lemma RememberedIsNotAskedAgain(rows: seq<GrantRow>, persistent: set<string>, req: CreateRequest,
                                  steps: seq<GrantStep>, k: nat, s: State, id: nat,
                                  a: PortAnswer, b: PortAnswer, c: PortAnswer, call: AdmitCall)
    requires TableValid(rows) && AnswersAt(CreateGrant(rows, persistent, req), req, k) && PathOperation(req.op)
    requires s.world.grants == GrantRun(CreateGrant(rows, persistent, req).rows, persistent, steps)
    requires k < |s.world.grants| ==>
      && Live(s.world.grants[k], s.world.now)
      && (s.world.grants[k].scope == RunScope ==> !RootRunIsTerminal(s.world.runs, req.subject.rootRun))
    requires id in s.attempts && s.attempts[id].phase.Starting? && req.op.effects != [SafeInternal]
    requires s.attempts[id].subject == req.subject && s.attempts[id].op == req.op
    requires Interactive(StartMode(s.world, s.attempts[id]))
    ensures var after := Run(s, [Resume(id, a), Resume(id, b), Resume(id, c)]).attempts;
      && id in after && after[id].phase.Authorized?
      && after[id].phase.operation.source == Grant && after[id].phase.operation.reason == GRANT_MATCH
    ensures StillAdmissible(s.world, req.subject, req.op) && CallHolds(req.op, call) ==>
              |Run(s, [Resume(id, a), Resume(id, b), Resume(id, c), Admit(id, call)]).admitted| == |s.admitted| + 1
  {
    var q := Query(s.world.now, req.subject, req.op, s.world.runs, s.world.printed);
    CreatedGrantIsFound(rows, persistent, req, steps, k, q);
    PlanShape(req.op, req.scope);
    GrantedAttemptStartsExactly(s, id, a, b, c, call);
  }

  /** So is a remembered answer: the grant its option created carries the attempt from its confirmation to the tool. */
  lemma RememberedAnswerStartsExactly(s: State, id: nat, q: string, a: PortAnswer, call: AdmitCall)
    requires id in s.attempts && s.attempts[id].phase == ConfirmingRemembered(q)
    requires Lookup(s.world, s.attempts[id].subject, s.attempts[id].op).Some?
    ensures var t := s.attempts[id];
      |Run(s, [Resume(id, a), Admit(id, call)]).admitted| == |s.admitted| + 1 <==>
        StillAdmissible(s.world, t.subject, t.op) && CallHolds(t.op, call)
  {
    var t := s.attempts[id];
    var m := Lookup(s.world, t.subject, t.op).value;
    var granted := Remembered(t.subject, t.op, q, m);
    TwoSteps(s, Resume(id, a), Admit(id, call));
    ResumeMoves(s, id, a);
    RememberedIsConfirmedExactly(s.world, t, q, a);
    var s1 := Next(s, Resume(id, a));
    AdmitTries(s1, id, granted, call);
    AdmissionStartsExactly(s1, granted, call);
    GrantRecheckExactly(s.world, granted, ToolUseOr(call.context, t.op.toolName));
    AdmissionLeavesItsTrace(s1, granted, call);
  }
}
