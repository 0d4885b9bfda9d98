/**
 Terminal integrity checks (crates/zk-db/src/artifact_terminal.rs): an observation is saved by
 comparing the whole manifest with the one it was made from, and receipted at most once.
 */
module ArtifactTerminal {
  import opened Wrappers
  import opened ArtifactInvalidation

  datatype Entry = Entry(
    artifactId: string, toolUse: string, producer: Option<string>, path: string, operation: string,
    state: string, sealedHash: Option<string>, actualHash: Option<string>, size: Option<int>,
    requiredValidator: Option<string>, validatorResult: Option<string>, failureCode: Option<string>,
    createdAt: string, updatedAt: string)

  datatype Manifest = Manifest(
    id: string, run: string, session: string, workspace: string, state: string,
    createdAt: string, updatedAt: string, entries: seq<Entry>)

  // ---------- what a projection may not touch ----------

  predicate SameSeal(a: Entry, b: Entry) {
    && a.artifactId == b.artifactId && a.toolUse == b.toolUse && a.producer == b.producer && a.path == b.path
    && a.operation == b.operation && a.sealedHash == b.sealedHash && a.size == b.size
    && a.requiredValidator == b.requiredValidator && a.createdAt == b.createdAt
  }

  predicate SameSeals(a: Manifest, b: Manifest) {
    && a.id == b.id && a.run == b.run && a.session == b.session && a.workspace == b.workspace
    && a.createdAt == b.createdAt && |a.entries| == |b.entries|
    && forall i :: 0 <= i < |a.entries| ==> SameSeal(a.entries[i], b.entries[i])
  }

  /** Overwrites the observable fields of a working copy and compares the rest in one go. */
  method ValidateProjection(expected: Manifest, observed: Manifest) returns (ok: bool)
    ensures ok == SameSeals(expected, observed)
  {
    var projection := observed.(state := expected.state, updatedAt := expected.updatedAt);
    if |projection.entries| != |expected.entries| { return false; }
    var entries := projection.entries;
    for i := 0 to |entries|
      invariant |entries| == |expected.entries| == |observed.entries|
      invariant forall k :: i <= k < |entries| ==> entries[k] == observed.entries[k]
      invariant forall k :: 0 <= k < i ==>
          (entries[k] == expected.entries[k] <==> SameSeal(expected.entries[k], observed.entries[k]))
    {
      var original := expected.entries[i];
      entries := entries[i := entries[i].(
        state := original.state, updatedAt := original.updatedAt, actualHash := original.actualHash,
        failureCode := original.failureCode, validatorResult := original.validatorResult)];
    }
    projection := projection.(entries := entries);
    ok := projection == expected;
    assert ok ==> entries == expected.entries;
  }

  /** A seal is everything of an entry but what a check may observe. */
  lemma SealsCoverTheRest(a: Entry, b: Entry)
    ensures SameSeal(a, b) <==>
              b == a.(state := b.state, actualHash := b.actualHash, validatorResult := b.validatorResult,
                      failureCode := b.failureCode, updatedAt := b.updatedAt)
  {
  }

  lemma SealsCompose(a: Manifest, b: Manifest, c: Manifest)
    requires SameSeals(a, b) && SameSeals(b, c)
    ensures SameSeals(a, c)
  {
    forall i | 0 <= i < |a.entries| ensures SameSeal(a.entries[i], c.entries[i]) {
      assert SameSeal(a.entries[i], b.entries[i]) && SameSeal(b.entries[i], c.entries[i]);
    }
  }

  // ---------- state ----------

  datatype Execution = Execution(terminal: bool, cleanedUp: bool)

  datatype CheckStatus = CheckVerified | CheckFailed | CheckUnavailable

  datatype Receipt = Receipt(run: string, status: CheckStatus, checkedAt: string)

  /** One saved observation, with what it was made from and the execution at that instant. */
  datatype Saving = Saving(expected: Manifest, observed: Manifest, execution: Execution)

  datatype Store = Store(
    manifests: map<string, Manifest>,
    receipts: map<string, Receipt>,
    executions: map<string, Execution>,
    ephemeral: set<string>,
    live: set<string>,
    tables: Tables,
    savings: seq<Saving>)

  datatype CheckError =
    SealChanged | CheckConflict | RunNotTerminal | CleanupUnconfirmed | ContentStillRequired | ContentStillAvailable

  datatype Commit = Saved | AlreadyChecked | Changed

  predicate StoreValid(s: Store) { ArtifactInvalidation.Valid(s.tables) }

  function RequireTerminal(s: Store, run: string): Option<CheckError> {
    if run !in s.executions || !s.executions[run].terminal then Some(RunNotTerminal)
    else if !s.executions[run].cleanedUp then Some(CleanupUnconfirmed)
    else None
  }

  /** The projections that rested on a verified manifest are retracted with it. */
  ghost function AfterObservation(s: Store, expected: Manifest, observed: Manifest, now: int): Store
    requires StoreValid(s)
  {
    var saved := s.(manifests := s.manifests[observed.id := observed]);
    if expected.state == "verified" && observed.state != "verified"
    then saved.(tables := Invalidated(s.tables, expected.id, expected.run, now)) else saved
  }

  ghost function SaveVerification(s: Store, expected: Manifest, observed: Manifest, now: int): Result<Store, CheckError>
    requires StoreValid(s)
  {
    if !SameSeals(expected, observed) then Err(SealChanged)
    else if expected.id !in s.manifests || s.manifests[expected.id] != expected then Err(CheckConflict)
    else Ok(AfterObservation(s, expected, observed, now))
  }

  function ReceiptOf(observed: Manifest): Receipt {
    Receipt(observed.run, if observed.state == "verified" then CheckVerified else CheckFailed, observed.updatedAt)
  }

  ghost function CommitCheck(s: Store, expected: Manifest, observed: Manifest, now: int):
      Result<(Store, Commit), CheckError>
    requires StoreValid(s)
  {
    if !SameSeals(expected, observed) then Err(SealChanged)
    else if RequireTerminal(s, expected.run).Some? then Err(RequireTerminal(s, expected.run).value)
    else if expected.id in s.receipts then Ok((s, AlreadyChecked))
    else if expected.id !in s.manifests || s.manifests[expected.id] != expected then Ok((s, Changed))
    else
      var after := AfterObservation(s, expected, observed, now);
      Ok((after.(receipts := s.receipts[observed.id := ReceiptOf(observed)],
                 savings := s.savings + [Saving(expected, observed, s.executions[expected.run])]), Saved))
  }

  /** pick is the row the lookup by run returned. */
  function MarkUnavailable(s: Store, run: string, pick: Option<string>, now: string): Result<Store, CheckError> {
    if RequireTerminal(s, run).Some? then Err(RequireTerminal(s, run).value)
    else if pick.None? || pick.value !in s.manifests then Ok(s)
    else
      var session := s.manifests[pick.value].session;
      if session !in s.ephemeral then Err(ContentStillRequired)
      else if session in s.live then Err(ContentStillAvailable)
      else if pick.value in s.receipts then Ok(s)
      else Ok(s.(receipts := s.receipts[pick.value := Receipt(run, CheckUnavailable, now)]))
  }

  // ---------- runs ----------

  datatype Step =
    | Write(manifest: Manifest, projections: Tables)
    | ChangeExecution(executions: map<string, Execution>, ephemeral: set<string>, live: set<string>)
    | Verify(expected: Manifest, observed: Manifest, now: int)
    | CommitStep(expected: Manifest, observed: Manifest, now: int)
    | Unavailable(run: string, pick: Option<string>, at: string)

  /** Write stands for every other writer: file receipts, manifest upserts, verification elsewhere. */
  ghost function Next(s: Store, step: Step): Store
    requires StoreValid(s)
  {
    match step
    case Write(m, projections) =>
      if ArtifactInvalidation.Valid(projections) then s.(manifests := s.manifests[m.id := m], tables := projections)
      else s
    case ChangeExecution(executions, ephemeral, live) =>
      s.(executions := executions, ephemeral := ephemeral, live := live)
    case Verify(expected, observed, now) =>
      var r := SaveVerification(s, expected, observed, now); if r.Ok? then r.value else s
    case CommitStep(expected, observed, now) =>
      var r := CommitCheck(s, expected, observed, now); if r.Ok? then r.value.0 else s
    case Unavailable(run, pick, at) =>
      var r := MarkUnavailable(s, run, pick, at); if r.Ok? then r.value else s
  }

  lemma StepKeepsStoreValid(s: Store, step: Step)
    requires StoreValid(s)
    ensures StoreValid(Next(s, step))
  {
    match step
    case Verify(expected, observed, now) => InvalidatedIsValid(s.tables, expected.id, expected.run, now);
    case CommitStep(expected, observed, now) => InvalidatedIsValid(s.tables, expected.id, expected.run, now);
    case _ =>
  }

  ghost predicate Trace(states: seq<Store>, steps: seq<Step>) {
    && |states| == |steps| + 1 && StoreValid(states[0])
    && forall i :: 0 <= i < |steps| ==> StoreValid(states[i]) ==> states[i + 1] == Next(states[i], steps[i])
  }

  function SavingsOf(savings: seq<Saving>, id: string): nat {
    if savings == [] then 0
    else SavingsOf(savings[..|savings| - 1], id) + if savings[|savings| - 1].expected.id == id then 1 else 0
  }

  /** What a saved observation says about the instant it was committed. */
  predicate SoundSaving(v: Saving) {
    v.execution.terminal && v.execution.cleanedUp && SameSeals(v.expected, v.observed)
  }

  /** One saved observation for each receipt of a check, and its result is what the receipt says. */
  ghost predicate Matched(receipts: map<string, Receipt>, savings: seq<Saving>) {
    && (forall id :: SavingsOf(savings, id) ==
                     if id in receipts && !receipts[id].status.CheckUnavailable? then 1 else 0)
    && (forall i :: 0 <= i < |savings| ==>
          savings[i].expected.id in receipts && receipts[savings[i].expected.id] == ReceiptOf(savings[i].observed))
  }

  ghost predicate Sound(s: Store) {
    && StoreValid(s)
    && (forall i :: 0 <= i < |s.savings| ==> SoundSaving(s.savings[i]))
    && Matched(s.receipts, s.savings)
  }

  lemma MatchedGrows(receipts: map<string, Receipt>, savings: seq<Saving>, v: Saving)
    requires Matched(receipts, savings) && v.expected.id !in receipts
    ensures Matched(receipts[v.expected.id := ReceiptOf(v.observed)], savings + [v])
  {
    var id := v.expected.id;
    assert SavingsOf(savings, id) == 0;
    SavingsGrow(savings, v);
  }

  lemma StepKeepsSound(s: Store, step: Step)
    requires Sound(s)
    ensures Sound(Next(s, step))
  {
    StepKeepsStoreValid(s, step);
    match step
    case CommitStep(expected, observed, now) => CommitKeepsSound(s, expected, observed, now);
    case Unavailable(run, pick, at) => UnavailableKeepsSound(s, run, pick, at);
    case _ => SoundIgnoresTheRest(s, Next(s, step));
  }

  lemma SoundIgnoresTheRest(s: Store, after: Store)
    requires Sound(s) && StoreValid(after) && after.savings == s.savings && after.receipts == s.receipts
    ensures Sound(after)
  {
  }

  lemma MatchedUnavailable(receipts: map<string, Receipt>, savings: seq<Saving>, id: string, r: Receipt)
    requires Matched(receipts, savings) && id !in receipts && r.status.CheckUnavailable?
    ensures Matched(receipts[id := r], savings)
  {
    assert SavingsOf(savings, id) == 0;
    NotSavedYet(savings, id);
  }

  lemma UnavailableKeepsSound(s: Store, run: string, pick: Option<string>, at: string)
    requires Sound(s)
    ensures MarkUnavailable(s, run, pick, at).Ok? ==> Sound(MarkUnavailable(s, run, pick, at).value)
  {
    if pick.Some? && pick.value !in s.receipts {
      MatchedUnavailable(s.receipts, s.savings, pick.value, Receipt(run, CheckUnavailable, at));
    }
  }

  /** What a saved check adds: one observation, sound, and its receipt. */
  lemma SavedAdds(s: Store, expected: Manifest, observed: Manifest, now: int)
    requires StoreValid(s) && CommitCheck(s, expected, observed, now).Ok?
    requires CommitCheck(s, expected, observed, now).value.1 == Saved
    ensures expected.run in s.executions && expected.id !in s.receipts
    ensures var after := Next(s, CommitStep(expected, observed, now));
      var v := Saving(expected, observed, s.executions[expected.run]);
      after.savings == s.savings + [v] && after.receipts == s.receipts[expected.id := ReceiptOf(observed)]
      && SoundSaving(v)
  {
  }

  lemma SoundGrows(s: Store, after: Store, v: Saving)
    requires Sound(s) && StoreValid(after) && SoundSaving(v) && v.expected.id !in s.receipts
    requires after.savings == s.savings + [v] && after.receipts == s.receipts[v.expected.id := ReceiptOf(v.observed)]
    ensures Sound(after)
  {
    MatchedGrows(s.receipts, s.savings, v);
  }

  lemma CommitKeepsSound(s: Store, expected: Manifest, observed: Manifest, now: int)
    requires Sound(s)
    ensures Sound(Next(s, CommitStep(expected, observed, now)))
  {
    var after := Next(s, CommitStep(expected, observed, now));
    StepKeepsStoreValid(s, CommitStep(expected, observed, now));
    var result := CommitCheck(s, expected, observed, now);
    if result.Ok? && result.value.1 == Saved {
      SavedAdds(s, expected, observed, now);
      SoundGrows(s, after, Saving(expected, observed, s.executions[expected.run]));
    } else {
      SoundIgnoresTheRest(s, after);
    }
  }

  lemma AtMostOneSaving(s: Store, id: string)
    requires Sound(s)
    ensures SavingsOf(s.savings, id) <= 1
  {
  }

  lemma SavingsGrow(savings: seq<Saving>, v: Saving)
    ensures forall id :: SavingsOf(savings + [v], id) == SavingsOf(savings, id) + if v.expected.id == id then 1 else 0
  {
    assert (savings + [v])[..|savings|] == savings;
  }

  lemma {:induction false} NotSavedYet(savings: seq<Saving>, id: string)
    requires SavingsOf(savings, id) == 0
    ensures forall i :: 0 <= i < |savings| ==> savings[i].expected.id != id
  {
    if savings != [] { NotSavedYet(savings[..|savings| - 1], id); }
  }

  /** A receipt, once written, is neither replaced nor removed. */
  lemma ReceiptIsFinal(s: Store, step: Step, id: string)
    requires StoreValid(s) && id in s.receipts
    ensures id in Next(s, step).receipts && Next(s, step).receipts[id] == s.receipts[id]
  {
  }

  /**
   Over every interleaving of writers and verifiers: a manifest is receipted at most once, each
   receipt of a check belongs to exactly one saved observation, and that was saved of a terminal,
   cleaned-up run with every seal intact.
   */
  lemma {:induction false} AtMostOneReceipt(states: seq<Store>, steps: seq<Step>, n: nat, id: string)
    requires Trace(states, steps) && n <= |steps| && states[0].receipts == map[] && states[0].savings == []
    ensures Sound(states[n]) && SavingsOf(states[n].savings, id) <= 1
    ensures forall m :: 0 <= m <= n && id in states[m].receipts ==>
              id in states[n].receipts && states[n].receipts[id] == states[m].receipts[id]
    decreases n
  {
    if n > 0 {
      AtMostOneReceipt(states, steps, n - 1, id);
      assert states[n - 1 + 1] == Next(states[n - 1], steps[n - 1]);
      StepKeepsSound(states[n - 1], steps[n - 1]);
      if id in states[n - 1].receipts { ReceiptIsFinal(states[n - 1], steps[n - 1], id); }
    }
    AtMostOneSaving(states[n], id);
  }

  /** An observation is saved only over exactly the manifest it was made from. */
  lemma SavedOverItsOwnManifest(s: Store, step: Step)
    requires StoreValid(s) && Next(s, step).savings != s.savings
    ensures step.CommitStep? && step.expected.id in s.manifests && s.manifests[step.expected.id] == step.expected
    ensures var after := Next(s, step);
      && after.manifests == s.manifests[step.expected.id := step.observed]
      && after.savings == s.savings + [Saving(step.expected, step.observed, s.executions[step.expected.run])]
      && step.expected.id !in s.receipts
      && after.receipts.Keys == s.receipts.Keys + {step.expected.id}
      && (forall id :: id in s.receipts ==> after.receipts[id] == s.receipts[id])
      && var r := after.receipts[step.expected.id];
         && r.run == step.observed.run && r.checkedAt == step.observed.updatedAt
         && r.status == if step.observed.state == "verified" then CheckVerified else CheckFailed
  {
    assert s.savings + [Saving(step.expected, step.observed, s.executions[step.expected.run])] != s.savings;
  }

  /** Losing a verified state retracts everything that was verified on its strength. */
  lemma LostVerificationRetracts(s: Store, step: Step)
    requires StoreValid(s) && (step.Verify? || step.CommitStep?)
    requires step.expected.state == "verified" && step.observed.state != "verified"
    requires Next(s, step).manifests != s.manifests
    ensures Retracted(Next(s, step).tables, step.expected.run)
  {
    InvalidationRetracts(s.tables, step.expected.id, step.expected.run, step.now);
  }

  /** Neither compare-and-swap path changes a path, a producer, a sealed hash or a size. */
  lemma CasKeepsSeals(s: Store, step: Step, id: string)
    requires StoreValid(s) && !step.Write? && id in s.manifests
    ensures id in Next(s, step).manifests && SameSeals(s.manifests[id], Next(s, step).manifests[id])
    ensures Next(s, step).manifests.Keys == s.manifests.Keys
  {
    if step.Verify? || step.CommitStep? {
      assert Next(s, step).manifests in {s.manifests, s.manifests[step.observed.id := step.observed]};
    }
  }

  lemma {:induction false} SealsSurviveChecks(states: seq<Store>, steps: seq<Step>, m: nat, n: nat, id: string)
    requires Trace(states, steps) && m <= n <= |steps| && StoreValid(states[m]) && id in states[m].manifests
    requires forall i :: m <= i < n ==> !steps[i].Write?
    ensures StoreValid(states[n]) && id in states[n].manifests
        && SameSeals(states[m].manifests[id], states[n].manifests[id])
    decreases n
  {
    if m < n {
      SealsSurviveChecks(states, steps, m, n - 1, id);
      assert states[n - 1 + 1] == Next(states[n - 1], steps[n - 1]);
      StepKeepsStoreValid(states[n - 1], steps[n - 1]);
      CasKeepsSeals(states[n - 1], steps[n - 1], id);
      SealsCompose(states[m].manifests[id], states[n - 1].manifests[id], states[n].manifests[id]);
    }
  }

  // ---------- what a receipt says ----------

  /** The saved observation a receipt comes from. */
  predicate ComesFrom(r: Receipt, v: Saving, id: string) {
    v.expected.id == id && r.run == v.observed.run && r.checkedAt == v.observed.updatedAt
  }

  lemma {:induction false} SomeSaving(savings: seq<Saving>, id: string) returns (i: nat)
    requires SavingsOf(savings, id) > 0
    ensures i < |savings| && savings[i].expected.id == id
  {
    var n := |savings| - 1;
    if savings[n].expected.id == id { i := n; } else { i := SomeSaving(savings[..n], id); }
  }

  /**
   Over every run a receipt tells what was seen: verified comes from a saved observation that was
   verified, failed from one that was not, each of that run at that time and of a terminal, cleaned-up
   execution; unavailable from none.
   */
  lemma ReceiptsTellWhatWasSeen(states: seq<Store>, steps: seq<Step>, n: nat, id: string)
    requires Trace(states, steps) && n <= |steps| && states[0].receipts == map[] && states[0].savings == []
    requires id in states[n].receipts
    ensures var r, savings := states[n].receipts[id], states[n].savings;
      && (r.status == CheckUnavailable <==> forall i :: 0 <= i < |savings| ==> savings[i].expected.id != id)
      && (r.status == CheckVerified <==>
            exists i :: 0 <= i < |savings| && ComesFrom(r, savings[i], id) && savings[i].observed.state == "verified")
      && (r.status == CheckFailed <==>
            exists i :: 0 <= i < |savings| && ComesFrom(r, savings[i], id) && savings[i].observed.state != "verified")
      && forall i :: 0 <= i < |savings| ==> savings[i].execution.terminal && savings[i].execution.cleanedUp
  {
    AtMostOneReceipt(states, steps, n, id);
    var r, savings := states[n].receipts[id], states[n].savings;
    assert forall i :: 0 <= i < |savings| && savings[i].expected.id == id ==>
      r == Receipt(savings[i].observed.run, if savings[i].observed.state == "verified" then CheckVerified
                                            else CheckFailed, savings[i].observed.updatedAt);
    if r.status != CheckUnavailable {
      var i := SomeSaving(savings, id);
      assert ComesFrom(r, savings[i], id);
    }
  }

  /** Every outcome of a terminal check, in the order the checks stand. */
  lemma CommitExactly(s: Store, expected: Manifest, observed: Manifest, now: int)
    requires StoreValid(s)
    ensures var r := CommitCheck(s, expected, observed, now);
      var ready := expected.run in s.executions && s.executions[expected.run] == Execution(true, true);
      && (r == Err(SealChanged) <==> !SameSeals(expected, observed))
      && (r.Ok? <==> SameSeals(expected, observed) && ready)
      && (r.Err? && r.error != SealChanged ==>
            r.error == if expected.run in s.executions && s.executions[expected.run].terminal then CleanupUnconfirmed
                       else RunNotTerminal)
      && (r.Ok? ==>
            && (r.value.1 == AlreadyChecked <==> expected.id in s.receipts)
            && (r.value.1 == Saved <==>
                  expected.id !in s.receipts && expected.id in s.manifests && s.manifests[expected.id] == expected)
            && (r.value.1 != Saved ==> r.value.0 == s)
            && (r.value.1 == Saved ==>
                  && r.value.0.manifests == s.manifests[expected.id := observed]
                  && r.value.0.receipts.Keys == s.receipts.Keys + {expected.id}
                  && (r.value.0.tables == s.tables || (expected.state == "verified" && observed.state != "verified"))))
  {
  }

  /** An explicit check saves exactly over the manifest it was made from, seals intact. */
  lemma SaveVerificationExactly(s: Store, expected: Manifest, observed: Manifest, now: int)
    requires StoreValid(s)
    ensures var r := SaveVerification(s, expected, observed, now);
      && (r == Err(SealChanged) <==> !SameSeals(expected, observed))
      && (r.Ok? <==>
            SameSeals(expected, observed) && expected.id in s.manifests && s.manifests[expected.id] == expected)
      && (r.Ok? ==> r.value.manifests == s.manifests[expected.id := observed] && r.value.receipts == s.receipts)
  {
  }

  /** Content is receipted as unavailable exactly for an ended run of an ephemeral session that is gone. */
  lemma UnavailableExactly(s: Store, run: string, pick: Option<string>, now: string)
    ensures var r := MarkUnavailable(s, run, pick, now);
      var ready := run in s.executions && s.executions[run] == Execution(true, true);
      && (r.Ok? && r.value != s <==>
            && ready && pick.Some? && pick.value in s.manifests && pick.value !in s.receipts
            && s.manifests[pick.value].session in s.ephemeral && s.manifests[pick.value].session !in s.live)
      && (r.Ok? && r.value != s ==>
            r.value == s.(receipts := s.receipts[pick.value := Receipt(run, CheckUnavailable, now)]))
      && (r.Err? ==>
            || !ready
            || (pick.Some? && pick.value in s.manifests
                && var session := s.manifests[pick.value].session; session !in s.ephemeral || session in s.live))
  {
    var r := MarkUnavailable(s, run, pick, now);
    if r.Ok? && pick.Some? && pick.value !in s.receipts && pick.value in r.value.receipts {
      assert r.value.receipts != s.receipts;
    }
  }

  // ---------- the two compare-and-swap transactions ----------

  class TerminalChecks {
    var manifests: map<string, Manifest>
    var receipts: map<string, Receipt>
    var executions: map<string, Execution>
    ghost var savings: seq<Saving>
    const projections: ArtifactStore

    ghost function View(): Store
      reads this, projections
    {
      Store(manifests, receipts, executions, {}, {}, projections.Contents(), savings)
    }

    constructor (projections: ArtifactStore)
      ensures this.projections == projections && View().manifests == map[] && View().receipts == map[]
    {
      this.projections := projections;
      manifests, receipts, executions, savings := map[], map[], map[], [];
    }

    method SaveObservation(expected: Manifest, observed: Manifest, now: int)
      requires StoreValid(View())
      modifies this`manifests, projections
      ensures View() == AfterObservation(old(View()), expected, observed, now)
    {
      manifests := manifests[observed.id := observed];
      if expected.state == "verified" && observed.state != "verified" {
        projections.InvalidateVerification(expected.id, expected.run, now);
      }
    }

    method SaveArtifactVerificationCas(expected: Manifest, observed: Manifest, now: int)
        returns (failure: Option<CheckError>)
      requires StoreValid(View())
      modifies this`manifests, projections
      ensures match SaveVerification(old(View()), expected, observed, now)
        case Ok(next) => failure == None && View() == next
        case Err(e) => failure == Some(e) && View() == old(View())
    {
      var ok := ValidateProjection(expected, observed);
      if !ok { return Some(SealChanged); }
      if expected.id !in manifests || manifests[expected.id] != expected { return Some(CheckConflict); }
      SaveObservation(expected, observed, now);
      return None;
    }

    method CommitTerminalArtifactCheck(expected: Manifest, observed: Manifest, now: int)
        returns (r: Result<Commit, CheckError>)
      requires StoreValid(View())
      modifies this`manifests, this`receipts, this`savings, projections
      ensures match CommitCheck(old(View()), expected, observed, now)
        case Ok((next, commit)) => r == Ok(commit) && View() == next
        case Err(e) => r == Err(e) && View() == old(View())
    {
      var ok := ValidateProjection(expected, observed);
      if !ok { return Err(SealChanged); }
      if expected.run !in executions || !executions[expected.run].terminal { return Err(RunNotTerminal); }
      if !executions[expected.run].cleanedUp { return Err(CleanupUnconfirmed); }
      if expected.id in receipts { return Ok(AlreadyChecked); }
      if expected.id !in manifests || manifests[expected.id] != expected { return Ok(Changed); }
      SaveObservation(expected, observed, now);
      receipts := receipts[observed.id := ReceiptOf(observed)];
      savings := savings + [Saving(expected, observed, executions[expected.run])];
      return Ok(Saved);
    }
  }
}
