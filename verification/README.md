# Verified model of zkcode's authorization, durable lifecycles, worker registry and stream client

This project models four parts of zkcode in Dafny and proves what they promise. `dafny verify dfyconfig.toml`
checks everything.

- **Authorization (`crates/zk-authz`).** The decision chain, the grant table, the admission gateway, the ancestry walk
  with its cache, the canonical facts and the binding of file operations. `Admission` is a transition system: every
  await of an attempt is a step boundary and every write transaction is one step, so modes, trust, runs, grants and
  interactions may change anywhere in between. Its main result, `EveryAdmissionIsSafe`, speaks about every such run.
- **Durable lifecycles (`crates/zk-db`).** The phase machine of browser recordings, the invalidation of verification
  over the task tree, the registration of produced files and of declared shell outputs with their effect on every
  manifest, and the terminal integrity check.
- **Worker registry and result cache (`python-service/src/analysis_jobs.py`).** A registry with process liveness as
  state that only starting, dying and killing change, and an ordered cache bounded by count and bytes. Admission and
  process start are one step, because no await lies between them.
- **Stream client (`python-service/cli/client.py`).** The incremental event-stream framer against the grammar of
  sections 9.2.5 and 9.2.6 of the HTML Living Standard, and the reconnect loop of section 9.2.4 against a server that
  replays its log after a cursor, with the modelled replay (`crates/zk-server/src/api/query_stream.rs`) shown to be one.

Where the source works step by step the model has a class or a method with loops, proved equal to a function; the
theorems are lemmas about those functions and about runs of them. Tables are maps or sequences, a `with_writer` closure
is one atomic step, hashes are opaque and injective, the filesystem is a canonicalizer with stated coherence, and ports
(interaction service, event sink, JSON, UTF-8, environment-name test) are parameters about which nothing else is
assumed. The partial unique index of the grant table is taken to be the identity tuple over unrevoked rows.

Safety is paired with its converse: beside what an operation never lets through stands exactly what it lets through and
what it then leaves. So an answered question starts its tool exactly when its row approves it
(`OnceAnswerStartsExactly`), a remembered decision is not asked for again (`RememberedIsNotAskedAgain`), a stored body is
a hit until its life or room ends (`HitExactly`), a receipt tells what was seen (`ReceiptsTellWhatWasSeen`), and a
yielded event holds every field of the frame it comes from (`DeliveredPayload`).

Where a promise does not hold of the code as written, the code is kept, a lemma names the input, and the exact
condition is proved:

- A shell operation whose facts did not change is refused by its own recheck unless its declared outputs resolve in
  strictly increasing order: two outputs declared the other way round, or one file declared under two spellings, are
  denied (`UnchangedBashAccepted`, `UnchangedBashDenied`, `SameFileTwiceDenied`).
- A backslash in a file name below the workspace root makes the recorded resource name another file (`BindingIsExact`,
  `BackslashLosesIdentity`). A language-tool input with a blank path field is analysed as working on the workspace and
  executed on its root; it passes its own recheck exactly when the root resolves to itself and needs no confirmation
  (`BlankFieldBindsRoot`). Apart from these two, every input that was analysed passes in the form it is executed
  (`ExecutedInputPassesRecheck`).
- Cancelling an analysis request that has already finished does not renew its entry. A cancellation can be followed by a
  start of its key within the time to live exactly when its entry was finished with less than that left and a slot is or
  can become free; every other accepted one keeps the key from starting (`CancelledKeyStartsNothing`,
  `CancellationLapsesExactly`).
- An occupied worker slot can be given back exactly when its job was not lost. It is lost when pipe or process cannot be
  created, which happens outside the `try` block, or when the cleanup raises before it released the job or started its
  background owner; in no other way, and never once the owner has it (`SlotComesBackExactly`, `LostExactly`,
  `HandedOverIsNeverLost`, `StarvedForever`). Even then at most two processes live.
- A data value survives the client exactly when it holds none of the further separators of Python's `splitlines`
  (`DataSurvivesExactly`, `FrameDataSurvivesExactly`, `SeparatorInsideDataIsLost`); exactly-once delivery is therefore
  stated for logs without them. For a log with one, where what is left of the cut value is no JSON object, exactly the
  events before it are delivered and the session fails there (`DeliveredUpToUnreadableFrame`,
  `FailsAtUnreadableFrame`). A cursor that expires in mid-response reaches the client as an event without an id,
  which it yields although the log has no such event; delivery is stated for the numbered events. The client also
  differs from the standard in not stripping a byte order mark, in not carrying an id from one block to the next, and in
  ending at a terminal event.
- A recording sealed anew after recovery evidence keeps its proof exactly when the seal names the recorded dispositions.
  Otherwise it stays sealed and unconsumed until a verifier leaves evidence of its own, which for a failed one may be
  never: safe, but stuck (`ResealAfterRecovery`, `StuckUntilMachineProven`). It takes a manifest without files
  (`StuckNeedsNoFiles`, `ResealWitness`); the callers in `crates/zk-server/src/python/tools/browser_recordings.rs`
  build one disposition per file and do not get there.
- The event of a produced file names an artifact identifier of the manifest exactly when the path had no entry before;
  on replacement it names one that no entry has (`EventNamesOnlyNewEntry`).
- The documented decision table lists the grant row without a condition on the mode; the code skips grants under PLAN,
  and the model follows the code. A `tool_started` event is best effort, so an admission may lack it; only a hook
  cannot start without its event.

## Model

| member | source | states |
|---|---|---|
| Ordering.CanonicalIsSortedSet | crates/zk-authz/src/canonicalizer.rs:15-60 | the canonical list is strictly increasing and holds exactly the given facts |
| Ordering.SortedSetIsUnique | crates/zk-authz/src/canonicalizer.rs:15-60 | there is only one such list, so canonicalization is determined by the set |
| Ordering.CanonicalDependsOnSet | crates/zk-authz/src/canonicalizer.rs:1-5 | listing order and repetition of facts do not change the canonical list |
| Ordering.CanonicalFixpoint | crates/zk-authz/src/canonicalizer.rs:15-60 | a list is its own canonical form exactly when it is strictly increasing |
| Ordering.Canonicalize | crates/zk-authz/src/canonicalizer.rs:15-60 | push-unseen-then-sort yields the unique sorted list of the set |
| Canonicalizer.Effects | crates/zk-authz/src/canonicalizer.rs:15-24 | effects deduplicated and ordered by their name, not their declaration |
| Canonicalizer.Resources | crates/zk-authz/src/canonicalizer.rs:31-46 | resources deduplicated and ordered by kind, value, then inside before outside |
| Canonicalizer.Strings | crates/zk-authz/src/canonicalizer.rs:51-60 | names and endpoints deduplicated and ordered |
| Canonicalizer.EffectStrictTotal | crates/zk-authz/src/canonicalizer.rs:22-22 | the name order of effects is a strict total order |
| Canonicalizer.ResourceStrictTotal | crates/zk-authz/src/canonicalizer.rs:38-44 | the three-level resource order is a strict total order |
| Canonicalizer.DescriptorDependsOnSets | crates/zk-authz/src/analyzer.rs:308-378 | two analyses give the same descriptor, and already the same operation hash, if and only if they found the same sets of facts |
| Canonicalizer.RecheckBashExact | crates/zk-authz/src/analyzer.rs:886-927 | the shell recheck passes if and only if the later facts list the approved canonical resources verbatim and reference the same names with the same risk and input |
| Canonicalizer.ResourcesSortedByOutputs | crates/zk-authz/src/analyzer.rs:561-565 | the working directory sorts before every output, so the resources are canonical if and only if the declared outputs resolve in strictly increasing order |
| Canonicalizer.UnchangedBashAccepted | crates/zk-authz/src/analyzer.rs:886-927 | unchanged shell facts pass if and only if the declared outputs resolve in strictly increasing order |
| Canonicalizer.PlainBashAccepted | crates/zk-authz/src/analyzer.rs:886-927 | with at most one declared output, and whatever names the command references, unchanged facts pass |
| Canonicalizer.UnchangedBashDenied | crates/zk-authz/src/analyzer.rs:561-565 | counterexample: outputs declared as b, a make the recheck of unchanged facts deny |
| Canonicalizer.SameFileTwiceDenied | crates/zk-authz/src/analyzer.rs:886-927 | one file declared under two spellings anywhere among the outputs makes the recheck of unchanged facts deny |
| Constraints.NormalizeRelativePath | crates/zk-authz/src/constraint.rs:149-168 | accepts exactly the workspace root and lists of proper segments without NUL or backslash, and returns them unchanged |
| Constraints.ContainmentIsSegmentPrefix | crates/zk-authz/src/constraint.rs:223-225 | on normalized paths string containment is list-prefix on path segments |
| Constraints.ContainmentIsPartialOrder | crates/zk-authz/src/constraint.rs:223-225 | containment is reflexive, antisymmetric and transitive on normalized paths |
| Constraints.Normalized | crates/zk-authz/src/constraint.rs:123-138 | prefix sets: first invalid item reported, empty set refused, otherwise the canonical list |
| Constraints.NormalizedPrefixesAreCanonical | crates/zk-authz/src/constraint.rs:123-138 | accepted prefix lists are normalized, nonempty and strictly sorted with the given elements |
| Constraints.DirectoryIsParent | crates/zk-authz/src/grants.rs:945-964 | the directory derived from a path contains it: itself for listings, the parent otherwise, none for the root as a file |
| Constraints.CapabilityCoversItsOperation | crates/zk-authz/src/grants.rs:682-704 | every capability derived from a path operation matches that operation |
| Constraints.CapabilityExactly | crates/zk-authz/src/grants.rs:682-704 | a capability is derived if and only if the file operation names in-workspace paths with a directory each, reading without and writing with a write effect |
| Constraints.MatchesFileExactly | crates/zk-authz/src/constraint.rs:223-225 | a file constraint matches if and only if the operation is allowed and every path is in the workspace and below one of its directories, segment by segment |
| Constraints.DecodeIsClosed | crates/zk-authz/src/grants.rs:876-932 | decoding yields only well-formed constraints of the requested kind |
| Constraints.ConstraintRoundTrip | crates/zk-authz/src/grants.rs:830-932 | an encoded constraint decodes under its own kind to itself |
| Grants.OfferedIffPlanned | crates/zk-authz/src/grants.rs:570-680 | a scope is offered if and only if the plan accepts it |
| Grants.PlanShape | crates/zk-authz/src/grants.rs:596-680 | a plan never stems from HIGH risk, delegates by scope, is well-formed, stays in the workspace for WORKSPACE, and matches the operation it was made for |
| Grants.OfferedExactly | crates/zk-authz/src/grants.rs:570-594 | what is offered, by analyzer, risk and scope: nothing for HIGH, the workspace for capable files only |
| Grants.PlanRemembersExactly | crates/zk-authz/src/grants.rs:596-680 | what is remembered: the whole tool, the directory capability, or exactly this operation |
| Grants.FindMatchIsLeastRankNewest | crates/zk-authz/src/grants.rs:347-424 | a lookup answers with a live, in-scope, decodable, matching row of least scope rank and newest in it, and with none if and only if no such row exists |
| Grants.NarrowestScopeAnswers | crates/zk-authz/src/grants.rs:347-424 | with an eligible RUN row the answer is one, with an eligible SESSION row it is no wider |
| Grants.FindMatchStable | crates/zk-authz/src/grants.rs:347-424 | as time passes the answer stays while its row stays live |
| Grants.GrantStepKeepsValid | crates/zk-authz/src/grants.rs:435-565 | creation and the three revocations keep the table invariant |
| Grants.ReachableTablesAreValid | crates/zk-authz/src/grants.rs:230-332 | every reachable row: not from HIGH, delegation and identity columns by scope, WORKSPACE only for file capabilities, unique identity among unrevoked rows |
| Grants.RowsPersist | crates/zk-authz/src/grants.rs:230-332 | no history rewrites, drops or revives a row: it stays or is revoked once |
| Grants.RunGrantsAreDirect | crates/zk-authz/src/grants.rs:707-735 | a RUN row matches only the run that created it |
| Grants.WorkspaceGrantsStayInside | crates/zk-authz/src/grants.rs:596-680 | a WORKSPACE row matches only in-workspace file operations under its own prefixes |
| Grants.EligibleIsOwn | crates/zk-authz/src/grants.rs:707-735 | an eligible row is live and about the same tool, analyzer, action and schema, and about the caller's own run, session or workspace; an exact one about this operation hash |
| Grants.RememberedCoversItsScope | crates/zk-authz/src/grants.rs:435-565 | a remembered row is eligible for every subject its scope speaks for and every operation its constraint matches, until exactly 12 hours or, for a workspace, 30 days later |
| Grants.CreationAnswersExactly | crates/zk-authz/src/grants.rs:435-475 | a creation is refused without a persistent session, answers none without a plan, never conflicts on a reachable table, and then changes nothing |
| Grants.CreationWritesExactly | crates/zk-authz/src/grants.rs:450-565 | otherwise it revokes exactly what has expired and appends the planned row if and only if no live row has its identity |
| Grants.RevocationEndsExactly | crates/zk-authz/src/grants.rs:230-332 | a revocation changes exactly the unrevoked rows it names, and only their revocation time and version |
| Grants.RevokedNeverAnswers | crates/zk-authz/src/grants.rs:230-332 | no later lookup is answered by a revoked row, whatever the history |
| Grants.RevokeCountExactly | crates/zk-authz/src/grants.rs:230-332 | the reported number is the number of rows revoked |
| Grants.ToolWideGrantMatchesHigh | crates/zk-authz/src/grants.rs:596-603 | HIGH operations store nothing, yet a stored tool-wide grant matches one |
| Grants.CreateAnswersLiveRow | crates/zk-authz/src/grants.rs:476-565 | on a reachable table creation never conflicts and names a live row with the requested identity, inserted or reused |
| Grants.SameIdentityAuthorizes | crates/zk-authz/src/grants.rs:784-826 | a live row with the request's identity authorizes the request whoever stored it |
| Grants.CreatedGrantIsFound | crates/zk-authz/src/grants.rs:347-565 | after creation and any later history the lookup succeeds until expiry, revocation or, for RUN, root termination |
| Grants.GrantStore.InsertCandidate | crates/zk-authz/src/grants.rs:355-395 | keeps the selected rows in query order |
| Grants.GrantStore.FindMatchAt | crates/zk-authz/src/grants.rs:347-424 | the query, ordering and early-exit loop compute the specified answer |
| Grants.GrantStore.ExpireAll | crates/zk-authz/src/grants.rs:450-455 | exactly the unrevoked rows past their expiry are revoked |
| Grants.GrantStore.Create | crates/zk-authz/src/grants.rs:435-565 | new table and answer of one creation; a refusal leaves the table as it was |
| Grants.GrantStore.Revoke | crates/zk-authz/src/grants.rs:230-332 | marks exactly the selected unrevoked rows and reports how many |
| Paths.AbsoluteNormalized | crates/zk-authz/src/workspace.rs:248-273 | the push-and-pop loop is the lexical resolution of the text |
| Paths.ResolveIsNormal | crates/zk-authz/src/workspace.rs:248-273 | a normalized path has no empty, dot or dot-dot name |
| Paths.DotsMoveExactly | crates/zk-authz/src/workspace.rs:248-273 | a dot and an empty component stay, two dots go up one name and stop at the root |
| Paths.PathTextRoundTrip | crates/zk-authz/src/workspace.rs:248-273 | printing a normal absolute path and normalizing it gives the path |
| Paths.RelativeTextRoundTrip | crates/zk-authz/src/workspace.rs:248-273 | joining a relative text of normal names onto a root appends exactly those names |
| AuthorizationPolicy.ModesAreOrdered | crates/zk-authz/src/service.rs:220-481 | how the modes compare on one request: PLAN allows nothing DEFAULT does not, ACCEPT_EDITS adds only writes inside the workspace of at most medium risk, AUTO_APPROVE allows all, DONT_ASK turns exactly the questions of DEFAULT into denials; only DEFAULT and ACCEPT_EDITS ask, only PLAN and DONT_ASK deny |
| AuthorizationPolicy.GrantDecidesExactly | crates/zk-authz/src/service.rs:325-337 | a found grant is the answer in every interactive mode for anything neither internal nor HIGH, and changes nothing anywhere else |
| AuthorizationPolicy.ModesAllowExactly | crates/zk-authz/src/service.rs:220-481 | what PLAN, DEFAULT, DONT_ASK and ACCEPT_EDITS let through without a grant, and who asks or denies otherwise |
| AuthorizationPolicy.ReasonsAreGrounds | crates/zk-authz/src/service.rs:220-481 | each allow's source and reason name what it rests on, the first that applies |
| AuthorizationPolicy.DenialNamesItsMode | crates/zk-authz/src/service.rs:273-325 | a denial blames PLAN under PLAN and the missing interaction under DONT_ASK |
| AuthorizationPolicy.TrustedPlaceIsThePath | crates/zk-authz/src/service.rs:523-634 | for an ordinary operation on one path, /private/tmp and the scratchpad are a matter of that path and of the root's trust |
| AuthorizationPolicy.OrdinaryExactly | crates/zk-authz/src/service.rs:623-645 | which tool, action and effect together make an ordinary file operation |
| AuthorizationPolicy.PoliciesAgree | crates/zk-authz/src/service.rs:778-821 | without a grant the chain allows exactly what the separately written recheck policy allows |
| AuthorizationPolicy.AllowWithoutGrant | crates/zk-authz/src/service.rs:220-481 | an allow without a grant rests on the current policy, and one for a trusted place on that place |
| AuthorizationPolicy.FreshAllowPassesRecheck | crates/zk-authz/src/service.rs:680-775 | every non-interactive allow passes the final recheck while mode, trust, scratchpad, grants and runs are unchanged and, only where the allow rests on a grant, that grant has not expired |
| AuthorizationPolicy.OnceRecheckExactly | crates/zk-authz/src/service.rs:730-740 | a one-time approval passes the recheck if and only if the run accepts tools, PLAN does not forbid it, and the question's row is answered for this run, tool use, input, operation and subject with its first matching option an allow-once |
| AuthorizationPolicy.GrantRecheckExactly | crates/zk-authz/src/service.rs:700-725 | a grant passes if and only if the run accepts tools, PLAN does not forbid it, and the very grant still answers the lookup |
| AuthorizationPolicy.PolicyRecheckExactly | crates/zk-authz/src/service.rs:740-775 | one resting on mode or policy passes if and only if, besides, that mode or place still lets it through |
| Admission.ToolExecutionGateway.AuthorizePrepared | crates/zk-authz/src/service.rs:220-481 | the chain of early returns decides as the specified chain; beyond that, an allow without grant is one of the current policy, one by grant rests on the one found, never under PLAN and never for HIGH, HIGH beyond internal effects is allowed exactly under AUTO_APPROVE, PLAN allows reads only |
| Admission.SegmentKeepsValid | crates/zk-authz/src/service.rs:843-1029 | between any two awaits an attempt only issues operations with consistent source, reason and grant, HIGH never by grant |
| Admission.PlanAdmitsReadsOnly | crates/zk-authz/src/service.rs:778-821 | under PLAN the policy allows only exactly internal or exactly read effects |
| Admission.RecheckedGrantIsEligible | crates/zk-authz/src/service.rs:700-725 | a grant that passed the recheck is a live, in-scope, matching row of the table, and a RUN row the run's own |
| Admission.AdmittedIsSafe | crates/zk-authz/src/service.rs:680-775 | a passed recheck: run accepting, grant still eligible, one-time answer still standing, PLAN only reads, HIGH only once-approved or AUTO_APPROVE |
| Admission.AdmitKeepsValid | crates/zk-authz/src/gateway.rs:140-243 | one admission transaction keeps every past admission safe and the audit consistent |
| Admission.StepKeepsValid | crates/zk-authz/src/gateway.rs:140-243 | every transition keeps the safety invariant |
| Admission.EveryAdmissionIsSafe | crates/zk-authz/src/gateway.rs:140-243 | over every interleaving of mode, trust, run, grant and interaction changes with attempts and admissions, each admission was safe at its instant, start events are admissions in order, and no hook starts without its event |
| Admission.HighNeverRestsOnGrant | crates/zk-authz/src/service.rs:273-325 | an admitted HIGH operation never rests on a grant: still answered once, or the session auto-approves at that instant |
| Admission.RecordIsNoStart | crates/zk-authz/src/service.rs:824-840 | recording a denial never adds a start event |
| Admission.AdmissionLeavesItsTrace | crates/zk-authz/src/gateway.rs:140-243 | an admission adds at most one event, to its own run: a denial exactly for a refusal, a hook start exactly for a started hook, and none for a rejected action, failed storage or an absent run |
| Admission.AdmissionStartsExactly | crates/zk-authz/src/gateway.rs:140-243 | a tool starts if and only if the recheck passes, a run is given, no resource holds NUL, no inherited name is sensitive, the analysis is unchanged, the action agrees, and storage holds, with the event for a hook |
| Admission.RefusalNamesItsCause | crates/zk-authz/src/gateway.rs:140-243 | the event of a refusal names the changed analysis or the recheck's own error |
| AttemptProgress.AttemptConcludes | crates/zk-authz/src/service.rs:220-481 | an attempt concludes with the verdict of the mode read at its start, at once or on the grant found at the second await, as authorization, refusal or the search for a question |
| AttemptProgress.DenialIsReported | crates/zk-authz/src/service.rs:273-325 | a refused attempt reports the code of its mode |
| AttemptProgress.DenialIsRecorded | crates/zk-authz/src/service.rs:824-840 | a reported denial is appended to the attempt's run, if there is one and it can be stored |
| AttemptProgress.AnsweredQuestionIsJudged | crates/zk-authz/src/service.rs:843-960 | a question answered before is loaded and judged as its row stands |
| AttemptProgress.NewQuestionIsJudged | crates/zk-authz/src/service.rs:843-960 | otherwise one is created, its answer awaited and judged |
| AttemptProgress.AnswerIsJudgedExactly | crates/zk-authz/src/service.rs:960-1029 | an answer of the same operation hash authorizes once, goes to confirmation, or is refused, by mode, risk and whether it is to be remembered |
| AttemptProgress.RememberedIsConfirmedExactly | crates/zk-authz/src/service.rs:960-1029 | a remembered answer is authorized by the grant that now answers the lookup, or refused |
| AttemptProgress.OnceAnswerStartsExactly | crates/zk-authz/src/gateway.rs:140-243 | from an answered question in four steps: the tool starts if and only if the row approves this operation and tool use, the run accepts tools and the call is in order |
| AttemptProgress.GrantedAttemptStartsExactly | crates/zk-authz/src/gateway.rs:140-243 | with a grant found, an attempt is authorized without a question and starts if and only if PLAN does not forbid it, the run accepts tools and the call is in order |
| AttemptProgress.RememberedIsNotAskedAgain | crates/zk-authz/src/service.rs:325-337 | after a remembered decision and any later history the same operation is authorized by a grant, whatever the port would answer, until expiry, revocation or the end of its root |
| AttemptProgress.RememberedAnswerStartsExactly | crates/zk-authz/src/service.rs:960-1029 | a confirmed remembered answer starts its tool under the same condition |
| Admission.ToolExecutionGateway.AdmitWith | crates/zk-authz/src/gateway.rs:140-243 | outcome, admitted tool and event of one admission; a rejected action or failed storage changes nothing, only authorization denials are recorded |
| Ancestry.RootForExact | crates/zk-authz/src/subject.rs:177-242 | success if and only if a parentless row with a usable root session lies within the bound; missing row, cycle and too-deep are characterized by the parent links |
| Ancestry.EndedChainIsDistinct | crates/zk-authz/src/subject.rs:184-187 | a chain that ends never visits a run twice, so the cycle check cannot refuse it |
| Ancestry.OneRootPerChain | crates/zk-authz/src/subject.rs:177-242 | all runs on a resolved run's chain resolve to the same root |
| Ancestry.MeetingChainsShareRoot | crates/zk-authz/src/subject.rs:177-242 | two resolved runs whose chains meet have one root |
| Ancestry.ChildSharesRoot | crates/zk-authz/src/subject.rs:177-242 | a child of a resolved run gets the same root, or too-deep if and only if its chain is one hop too long |
| Ancestry.CacheAgreesWithWalk | crates/zk-authz/src/subject.rs:133-174 | over every interleaving of lookups, stores and clears with unchanged ancestry the cache stays within 4096 entries and agrees with the walk |
| Ancestry.HitIsTheWalk | crates/zk-authz/src/subject.rs:133-150 | every hit on a cache so reached is what the walk would answer |
| Ancestry.LookupRenewsExactly | crates/zk-authz/src/subject.rs:133-150 | a hit lives on for exactly 30 minutes from now, a miss leaves nothing behind, other entries stay |
| Ancestry.StoringKeepsValid | crates/zk-authz/src/subject.rs:153-174 | evicting the oldest and storing keeps bound and agreement |
| Ancestry.AuthorizationSubjectResolver.Cached | crates/zk-authz/src/subject.rs:133-150 | a hit within the time to live renews the entry, an expired entry is dropped |
| Ancestry.AuthorizationSubjectResolver.OldestEntry | crates/zk-authz/src/subject.rs:162-166 | an entry of least access time |
| Ancestry.AuthorizationSubjectResolver.Remember | crates/zk-authz/src/subject.rs:153-174 | at capacity the oldest entry makes room for the new one |
| Ancestry.ClearForgets | crates/zk-authz/src/subject.rs:126-131 | from a clear on, whatever the cache held and whatever ancestry that came from, every hit is what the walk answers on the present ancestry |
| Ancestry.AuthorizationSubjectResolver.LoadRoot | crates/zk-authz/src/subject.rs:177-242 | the bounded loop with its seen set computes the root or the exact error |
| Ancestry.AuthorizationSubjectResolver.Resolve | crates/zk-authz/src/subject.rs:72-84 | a blank run is refused, any other answer is the walk's whatever the cache holds |
| PathSecurity.ResolveThroughExistingAncestor | crates/zk-authz/src/path_security.rs:363-385 | the climbing loop yields the real path of the longest existing prefix with the missing names appended, or the path itself |
| PathSecurity.RealIsFixed | crates/zk-authz/src/path_security.rs:918-923 | resolution is idempotent: a resolved path resolves to itself |
| PathSecurity.RealFollowsLinks | crates/zk-authz/src/path_security.rs:918-923 | an existing path resolves to its canonical form, a missing one through that of its longest existing part |
| PathSecurity.MissingBelow | crates/zk-authz/src/path_security.rs:363-385 | a missing name below a canonical directory resolves in place |
| PathSecurity.RealIsNormal | crates/zk-authz/src/path_security.rs:918-923 | resolution keeps paths normal and free of NUL |
| PathSecurity.ContainsUnrelaxedSensitiveComponent | crates/zk-authz/src/path_security.rs:1003-1034 | found if and only if some component matches the name and is not the exempt scratchpad marker |
| PathSecurity.MatchingSensitiveDirectory | crates/zk-authz/src/path_security.rs:958-1000 | found if and only if the root's own name or a component below it (any component outside) is sensitive and not exempt |
| PathSecurity.LinkTestNeverFires | crates/zk-authz/src/path_security.rs:864-881 | the symbolic-link branch of the write check is unreachable on resolved paths |
| PathSecurity.ResolvedNameChecksNoWorse | crates/zk-authz/src/path_security.rs:579-889 | checking the resolved name is never newly denied and never newly needs confirmation, for reads and writes |
| PathSecurity.ChecksExactly | crates/zk-authz/src/path_security.rs:579-889 | when a target is denied and when it is allowed without confirmation, for reads and writes, by its resolved and its requested name |
| PathSecurity.SensitiveIsNeverSilent | crates/zk-authz/src/path_security.rs:958-1034 | nothing below .git, .ssh and the other listed directories is ever read or written without confirmation, whatever the letters' case |
| PathSecurity.ConfigurationIsExemptExactly | crates/zk-authz/src/path_security.rs:1003-1034 | the configuration directory is sensitive but for the scratchpad below the project's own marker and the system scratchpad that resolves as configured |
| PathBinding.BindingIsExact | crates/zk-authz/src/analyzer.rs:573-585 | the recorded resource joined to the root is the analysed target if and only if it is outside the root or no name below the root holds a backslash |
| PathBinding.BackslashLosesIdentity | crates/zk-authz/src/analyzer.rs:579-582 | counterexample: a name with a backslash and a file in a directory share one resource |
| PathBinding.BindExecutionInput | crates/zk-authz/src/analyzer.rs:247-301 | only the tool's path fields are replaced, by the bound target, and nothing is bound when there is none to replace |
| PathBinding.BindsExactly | crates/zk-authz/src/analyzer.rs:247-301 | an input is bound if and only if the tool is the notebook editor or a field of the tool is there; then exactly the tool's fields name the target and the rest is as it came |
| PathBinding.BoundFieldIsRead | crates/zk-authz/src/analyzer.rs:1144-1161 | whatever else the input carries, the recheck reads the field that was bound |
| PathBinding.PathIsTakenInOrder | crates/zk-authz/src/analyzer.rs:1144-1161 | which fields each tool is read from and in which order, the notebook tool's own reading included |
| PathBinding.AnalysisExactly | crates/zk-authz/src/analyzer.rs:1077-1117 | an input is refused if and only if its path holds NUL, is a network path or is denied; its risk is HIGH exactly when the check wants confirmation and SAFE exactly for allowed reads inside the root |
| PathBinding.TargetIsNormal | crates/zk-authz/src/analyzer.rs:1077-1117 | every analysed target is a normal path without NUL |
| PathBinding.ReanalysisIsStable | crates/zk-authz/src/analyzer.rs:1077-1117 | analysing the resolved name again finds the same resource, is not denied and has no greater risk |
| PathBinding.BoundInputPassesRecheck | crates/zk-authz/src/analyzer.rs:247-301 | with an unchanged filesystem and a target outside the root or without backslash below it, the bound input names exactly the analysed target and passes the recheck |
| PathBinding.BlankFieldBindsRoot | crates/zk-authz/src/analyzer.rs:269-281 | a blank path field of the language tool is bound to the root, and passes the recheck if and only if the root resolves to itself and its check is an unconditional allow |
| PathBinding.ExecutedInputPassesRecheck | crates/zk-authz/src/analyzer.rs:1012-1035 | every input that was analysed, with or without a usable path, passes the recheck in the form it is executed, bound or as it came, under those two conditions |
| BrowserRecordings.CheckFile | crates/zk-db/src/browser_recordings.rs:551-573 | a file passes exactly when accounted for, and an archived one takes its size from the remaining budget |
| BrowserRecordings.ValidateRecoveryDispositions | crates/zk-db/src/browser_recordings.rs:539-576 | accepts if and only if at most 50 files have one valid disposition each and archived bytes stay within 20 MiB |
| BrowserRecordings.DispositionsAccountFor | crates/zk-db/src/browser_recordings.rs:551-573 | each file of an accepted list is archived with its own bytes, missing, or left out for want of budget |
| BrowserRecordings.ProofIsEvidence | crates/zk-db/src/browser_recordings.rs:326-333 | either proof is a durable item with the recording's own digest and dispositions |
| BrowserRecordings.MachineProofIsOwn | crates/zk-db/src/browser_recordings.rs:326-333 | a machine proof is an item of the recording's completed invocation, in its run and session, naming its digest and dispositions |
| BrowserRecordings.RecoveryProofIsOwn | crates/zk-db/src/browser_recordings.rs:522-538 | a recovery proof is of an aborted verifier of the run and names owner, manifest, outcome and dispositions |
| BrowserRecordings.StepKeepsValid | crates/zk-db/src/browser_recordings.rs:156-340 | every write and every outside change keeps evidence before consumption |
| BrowserRecordings.ConsumedOnlyWithEvidence | crates/zk-db/src/browser_recordings.rs:308-340 | in every reachable state an ackEligible or acknowledged recording is proven not created or has durable evidence of the same manifest digest and dispositions |
| BrowserRecordings.SealKeepsValid | crates/zk-db/src/browser_recordings.rs:156-189 | sealing keeps the invariant |
| BrowserRecordings.UncreatedKeepsValid | crates/zk-db/src/browser_recordings.rs:197-217 | acknowledging an uncreated recording keeps the invariant |
| BrowserRecordings.RecoverKeepsValid | crates/zk-db/src/browser_recordings.rs:263-300 | recovery evidence keeps the invariant |
| BrowserRecordings.AdvanceKeepsValid | crates/zk-db/src/browser_recordings.rs:308-340 | advancing keeps the invariant |
| BrowserRecordings.DeleteKeepsValid | crates/zk-db/src/browser_recordings.rs:620-631 | a cascading deletion takes no evidence from a recording it leaves |
| BrowserRecordings.StepMoves | crates/zk-db/src/browser_recordings.rs:156-340 | one step moves any row only forward and settles it only by an acknowledgement of that row |
| BrowserRecordings.RecordingsOnlyMoveForward | crates/zk-db/src/browser_recordings.rs:156-340 | over any run phases never go back, a sealed manifest never changes, dispositions change at most from empty and only while sealed, versions strictly increase with every change |
| BrowserRecordings.ProtectedUntilAcknowledged | crates/zk-db/src/browser_recordings.rs:620-631 | an unsettled recording survives every step, deletion included, until acknowledged with evidence or with proof of absence |
| BrowserRecordings.BatchProtectedUntilAcknowledged | crates/zk-db/src/browser_recordings.rs:123-126 | a batch stays protected from pruning until a step acknowledges one of its own recordings |
| BrowserRecordings.DeletionLosesNothing | crates/zk-db/src/browser_recordings.rs:620-631 | a deletion that goes through removes no unsettled recording and touches no row outside the subtree |
| BrowserRecordings.DeletionNeedsAcknowledgement | crates/zk-db/src/browser_recordings.rs:620-631 | a session can be deleted if and only if every recording in its tree is acknowledged |
| BrowserRecordings.RecoveryEnablesAdvance | crates/zk-db/src/browser_recordings.rs:522-538 | after recovery evidence the recording can advance |
| BrowserRecordings.SealExactly | crates/zk-db/src/browser_recordings.rs:156-189 | a seal goes through if and only if it is the recording's own, has a digest and fits, once or again with the same manifest and no other dispositions; then it is stored as given |
| BrowserRecordings.AbsenceExactly | crates/zk-db/src/browser_recordings.rs:197-217 | absence is acknowledged if and only if the row is released, never sealed, and the proof is its own |
| BrowserRecordings.RecoveryExactly | crates/zk-db/src/browser_recordings.rs:263-300 | recovery goes through if and only if the aborted owner's recording is sealed and fully disposed and nothing else was stored in its place |
| BrowserRecordings.RecoveryNamesItsBundle | crates/zk-db/src/browser_recordings.rs:263-300 | a recovery leaves its one bundle, in the row's session, and its name on the recording |
| BrowserRecordings.RecoveryStoresEvidence | crates/zk-db/src/browser_recordings.rs:263-300 | it leaves an item with the recording's dispositions and one for each of them, and every older item as it was |
| BrowserRecordings.AdvanceExactly | crates/zk-db/src/browser_recordings.rs:308-340 | an advance moves exactly the row of the expected version: to eligible from sealed with evidence, to acknowledged from eligible |
| BrowserRecordings.EligibleIsAcknowledged | crates/zk-db/src/browser_recordings.rs:308-340 | an eligible, released recording is settled by the next acknowledgement |
| BrowserRecordings.ResealAfterRecovery | crates/zk-db/src/browser_recordings.rs:156-189 | an accepted seal after recovery evidence keeps the recording proven if and only if it names the recorded dispositions; otherwise the recording is stuck |
| BrowserRecordings.StuckNeedsMachineEvidence | crates/zk-db/src/browser_recordings.rs:263-340 | a stuck recording is refused by every recovery and advances if and only if it is released and a verifier left evidence of its own |
| BrowserRecordings.StuckUntilMachineProven | crates/zk-db/src/browser_recordings.rs:156-340 | over every run a stuck recording stays sealed and unconsumed until a verifier left evidence of its own |
| BrowserRecordings.StuckNeedsNoFiles | crates/zk-db/src/browser_recordings.rs:156-300 | a seal right after its own recovery gets a recording stuck only if its manifest lists no file and nothing had been disposed of |
| BrowserRecordings.ResealWitness | crates/zk-db/src/browser_recordings.rs:156-300 | a concrete sequence into that state: a manifest without files is recovered with no dispositions and then sealed with one |
| BrowserRecordings.RecordingStore.SealBrowserRecording | crates/zk-db/src/browser_recordings.rs:156-189 | new state and error of one seal |
| BrowserRecordings.RecordingStore.AcknowledgeUncreatedRecording | crates/zk-db/src/browser_recordings.rs:197-217 | new state and error of one proof of absence |
| BrowserRecordings.RecordingStore.AdvanceBrowserRecording | crates/zk-db/src/browser_recordings.rs:308-340 | the versioned compare-and-swap: moved, lost, unproven, or an error for a missing row or invocation, and the new state |
| BrowserRecordings.RecordingStore.CompleteFailedRecording | crates/zk-db/src/browser_recordings.rs:263-300 | new state and error of one recovery; a repeated one changes nothing |
| ArtifactInvalidation.StaleTasksAreAncestors | crates/zk-db/src/artifact.rs:818-828 | the stale tasks are exactly those reachable by parent links from the source run's task, cyclic data included |
| ArtifactInvalidation.ClimbIsReach | crates/zk-db/src/artifact.rs:818-828 | the deduplicating worklist finds all and only the ancestors |
| ArtifactInvalidation.InvalidationRetracts | crates/zk-db/src/artifact.rs:803-919 | afterwards closure tasks and their runs are stale, their machine- or human-origin evidence is pending or stale, and criteria resting on their evidence are not verified |
| ArtifactInvalidation.StaleExactly | crates/zk-db/src/artifact.rs:803-853 | by parent links alone: afterwards a task, run or criterion is stale or not verified if and only if it was or the source run's task reaches it |
| ArtifactInvalidation.InvalidationSaysStale | crates/zk-db/src/artifact.rs:844-919 | what each changed row says: stale since now, one version on; an outdated bundle one further verdict of stale by artifact integrity under its own origin |
| ArtifactInvalidation.OutdatedExactly | crates/zk-db/src/artifact.rs:854-889 | evidence is outdated if and only if a machine or human vouched for it in a stale run and it is neither pending nor stale |
| ArtifactInvalidation.InvalidationIsFramed | crates/zk-db/src/artifact.rs:803-919 | no row appears, vanishes or changes its parent, task or bundle; a task, run, criterion or verdict changes if and only if it is stale by the closure and was not yet, tasks and runs by one version, and exactly one event per changed run is appended |
| ArtifactInvalidation.OriginIsKept | crates/zk-db/src/artifact.rs:854-889 | who vouches for a bundle is kept, and evidence that is not outdated keeps its history |
| ArtifactInvalidation.RetractedIsFixed | crates/zk-db/src/artifact.rs:803-919 | already retracted tables are left exactly as they are |
| ArtifactInvalidation.InvalidationIsIdempotent | crates/zk-db/src/artifact.rs:803-919 | a second call changes nothing and emits no event |
| ArtifactInvalidation.RetractedStays | crates/zk-db/src/artifact.rs:803-919 | no later invalidation gives back what one retracted |
| ArtifactInvalidation.ClosureIsKept | crates/zk-db/src/artifact.rs:803-919 | invalidation moves no task and no run, so every closure stays |
| ArtifactInvalidation.ArtifactStore.CollectStaleTasks | crates/zk-db/src/artifact.rs:811-828 | the recursive query's result |
| ArtifactInvalidation.ArtifactStore.SortIds | crates/zk-db/src/artifact.rs:834-843 | the changed runs in the order of their ids |
| ArtifactInvalidation.CriteriaAreFramed | crates/zk-db/src/artifact.rs:844-853 | a criterion keeps its bundle and changes if and only if it was verified on evidence of a stale run, and one on such evidence ends not verified |
| ArtifactInvalidation.ArtifactStore.AppendStaleVerdicts | crates/zk-db/src/artifact.rs:854-889 | each outdated bundle gets the next version saying stale under its own effective origin |
| ArtifactInvalidation.ArtifactStore.InvalidateVerification | crates/zk-db/src/artifact.rs:803-919 | the whole write in its order: closure, snapshot of changed runs, criteria, verdicts, tasks, runs, events |
| ArtifactRecords.RecordKeepsValid | crates/zk-db/src/artifact.rs:164-330 | one manifest per run and one entry per path are kept |
| ArtifactRecords.NoVerifiedOtherBytes | crates/zk-db/src/artifact.rs:233-276 | after a receipt nothing counts as verified on other bytes at that path, in any run's manifest |
| ArtifactRecords.RecordRetractsAffected | crates/zk-db/src/artifact.rs:254-276 | everything verified on the strength of an affected manifest is retracted in the same write |
| ArtifactRecords.RecordIsFramed | crates/zk-db/src/artifact.rs:164-330 | entries at other paths and unaffected manifests are untouched |
| ArtifactRecords.RecordAcceptedExactly | crates/zk-db/src/artifact.rs:164-231 | a receipt is accepted if and only if it is good in itself and sent by its producer into a manifest of its session and workspace, with the first objection otherwise |
| ArtifactRecords.AcceptedIsRegistered | crates/zk-db/src/artifact.rs:277-340 | an accepted receipt is in its run's manifest with its bytes and producer; a new one leaves the manifest sealed and writes one event saying so |
| ArtifactRecords.OthersChangeExactly | crates/zk-db/src/artifact.rs:233-276 | of the other manifests exactly those change that rested on other bytes at the path |
| ArtifactRecords.MarksSayWhy | crates/zk-db/src/artifact.rs:254-276 | a marked entry says unverified and why, with the new hash unless either session is ephemeral |
| ArtifactRecords.RetryChangesNothing | crates/zk-db/src/artifact.rs:202-231 | sending the same receipt again changes nothing |
| ArtifactRecords.EventNamesOnlyNewEntry | crates/zk-db/src/artifact.rs:299-340 | the artifact id in the event of an accepted new receipt is that of an entry of the manifest if and only if the path had no entry before, and then of that path's entry |
| ArtifactRecords.UpsertIsFramed | crates/zk-db/src/artifact.rs:299-330 | the entry of the path is replaced or appended, all others stay |
| ArtifactRecords.ArtifactRegistry.AffectedRows | crates/zk-db/src/artifact.rs:233-252 | each affected manifest once |
| ArtifactRecords.ArtifactRegistry.UnverifyRows | crates/zk-db/src/artifact.rs:254-276 | each affected manifest invalidated and marked, others untouched |
| ArtifactRecords.ArtifactRegistry.RecordProducedFile | crates/zk-db/src/artifact.rs:164-330 | new state and error of one receipt; a refused one leaves everything as it was |
| ShellArtifacts.ValidateReceipts | crates/zk-db/src/artifact.rs:522-604 | the single pass with running total and name sets reports exactly the first error in its order, or none |
| ShellArtifacts.CheckReceipt | crates/zk-db/src/artifact.rs:536-604 | one receipt against budget, workspace, earlier names, its declaration and what the operation demands of hashes and size |
| ShellArtifacts.AcceptedNamesDiffer | crates/zk-db/src/artifact.rs:543-570 | accepted receipts name distinct files, as requested and as found, and each is declared |
| ShellArtifacts.EveryDeclarationAnswered | crates/zk-db/src/artifact.rs:522-570 | with as many distinct receipts as declarations none is left without an answer |
| ShellArtifacts.ExactlyTheDeclared | crates/zk-db/src/artifact.rs:497-604 | accepted receipts publish exactly the declared outputs: every declaration answered, no path declared twice, distinct files inside the workspace, at most 100 MiB |
| ShellArtifacts.AcceptedExactly | crates/zk-db/src/artifact.rs:522-604 | receipts are accepted if and only if there are as many as declarations, 1 to 32, in the foreground, all distinct, inside the workspace, within 100 MiB, each answering the first declaration of its path |
| ShellArtifacts.OperationsDemandExactly | crates/zk-db/src/artifact.rs:571-604 | what creating, modifying and deleting demand of hashes before and after and of the size |
| ShellArtifacts.OperationNamesExactly | crates/zk-db/src/artifact.rs:569-580 | a declared operation may be written in two ways each, in any case, and no other |
| ShellArtifacts.PlacedAll | crates/zk-db/src/artifact.rs:649-699 | afterwards every accepted receipt is in the manifest, entries of other files are untouched and replaced entries keep their identity |
| ShellArtifacts.PublishReceipts | crates/zk-db/src/artifact.rs:635-699 | the retry check and the replace-or-append loop over the receipts, within the run's own manifest |
| ShellPublication.NothingVerifiedAtPublished | crates/zk-db/src/artifact.rs:647-699 | after a batch nothing counts as verified at any published path, in any run's manifest |
| ShellPublication.BatchRetractsVerified | crates/zk-db/src/artifact.rs:649-665 | at the end of the write everything verified on the strength of a manifest that held any of the files verified is retracted |
| ShellPublication.MarksAreFramed | crates/zk-db/src/artifact.rs:663-664 | marking leaves identity, order and entries of other files of every manifest alone |
| ShellPublication.PublishIsFramed | crates/zk-db/src/artifact.rs:605-699 | entries of files not published stay as they were in every manifest, no manifest is lost and none loses an entry |
| ShellPublication.PublishKeepsValid | crates/zk-db/src/artifact.rs:605-703 | one manifest per run and one entry per path are kept |
| ShellPublication.PublishedExactly | crates/zk-db/src/artifact.rs:497-703 | a batch goes through if and only if its producer sends what it declared into a manifest of its session and workspace; then every receipt is there, and a new batch leaves it sealed |
| ShellPublication.OthersAreMarkedExactly | crates/zk-db/src/artifact.rs:649-665 | of the other manifests exactly those are marked that held any of the files verified |
| ShellPublication.RepublishChangesNothing | crates/zk-db/src/artifact.rs:635-647 | publishing the same batch again is accepted, changes nothing and records no event |
| ShellPublication.UnverifyBatch | crates/zk-db/src/artifact.rs:649-665 | for every receipt in turn exactly the manifests affected by then are invalidated and marked |
| ShellPublication.PublishDeclared | crates/zk-db/src/artifact.rs:497-720 | new state and first objection of a whole batch; a refused one leaves everything as it was |
| ArtifactTerminal.ValidateProjection | crates/zk-db/src/artifact_terminal.rs:161-184 | accepts if and only if identity, path, producer, operation, sealed hash, size, validator requirement and creation time agree entry by entry |
| ArtifactTerminal.SealsCoverTheRest | crates/zk-db/src/artifact_terminal.rs:161-184 | a seal is everything of an entry but the five fields a check may observe |
| ArtifactTerminal.AtMostOneReceipt | crates/zk-db/src/artifact_terminal.rs:99-124 | over every interleaving of writers and verifiers a manifest is receipted at most once, finally, and each check receipt belongs to one saved observation of a terminal, cleaned-up run |
| ArtifactTerminal.StepKeepsSound | crates/zk-db/src/artifact_terminal.rs:67-145 | every step keeps receipts and saved observations in one-to-one correspondence |
| ArtifactTerminal.ReceiptIsFinal | crates/zk-db/src/artifact_terminal.rs:108-110 | a receipt is never replaced or removed |
| ArtifactTerminal.ReceiptsTellWhatWasSeen | crates/zk-db/src/artifact_terminal.rs:99-145 | over every run: a verified receipt comes from a saved observation that was verified, a failed one from one that was not, each with its run and time; an unavailable one from none |
| ArtifactTerminal.CommitExactly | crates/zk-db/src/artifact_terminal.rs:99-124 | when a check is refused, already done, changed or saved, and what it leaves |
| ArtifactTerminal.SaveVerificationExactly | crates/zk-db/src/artifact_terminal.rs:67-92 | an explicit check saves if and only if the seals are intact and the manifest is the one it was made from |
| ArtifactTerminal.UnavailableExactly | crates/zk-db/src/artifact_terminal.rs:126-145 | content is receipted as unavailable if and only if the run has ended, its session is ephemeral and gone, and there is no receipt |
| ArtifactTerminal.SavedOverItsOwnManifest | crates/zk-db/src/artifact_terminal.rs:108-122 | an observation is saved only over exactly the manifest it was made from, with a receipt of its run and time that says verified if and only if it was |
| ArtifactTerminal.LostVerificationRetracts | crates/zk-db/src/artifact_terminal.rs:82-88 | an observation that loses a verified state retracts what was verified on it |
| ArtifactTerminal.CasKeepsSeals | crates/zk-db/src/artifact_terminal.rs:67-124 | no compare-and-swap alters a path, producer, sealed hash or size |
| ArtifactTerminal.SealsSurviveChecks | crates/zk-db/src/artifact_terminal.rs:67-124 | over any run without another writer every seal survives |
| ArtifactTerminal.TerminalChecks.SaveObservation | crates/zk-db/src/artifact_terminal.rs:81-88 | the observed manifest replaces the expected one, with invalidation when verification is lost |
| ArtifactTerminal.TerminalChecks.SaveArtifactVerificationCas | crates/zk-db/src/artifact_terminal.rs:67-92 | new state or conflict of an explicit check |
| ArtifactTerminal.TerminalChecks.CommitTerminalArtifactCheck | crates/zk-db/src/artifact_terminal.rs:99-124 | saved, already checked or changed, with the whole new state |
| WorkerRegistry.BoundsAlwaysHold | python-service/src/analysis_jobs.py:151-161 | in every interleaving at most two worker processes live and at most 256 registry entries exist |
| WorkerRegistry.StepKeepsValid | python-service/src/analysis_jobs.py:45-263 | every locked section and every process event keeps the registry consistent |
| WorkerRegistry.JobsByKeys | python-service/src/analysis_jobs.py:157-158 | counting registry entries bounds active jobs, because each owns its key |
| WorkerRegistry.SlotFreedOnlyAfterDeath | python-service/src/analysis_jobs.py:220-263 | a slot is freed only by a release after confirmed death or a start that failed |
| WorkerRegistry.ActiveEntryStays | python-service/src/analysis_jobs.py:45-49 | pruning never drops an active entry |
| WorkerRegistry.ReleasedStaysDead | python-service/src/analysis_jobs.py:220-243 | a released job is never active again and its process never alive |
| WorkerRegistry.CancelBars | python-service/src/analysis_jobs.py:74-86 | a cancellation keeps its key occupied for the whole time to live if and only if the entry is new, active, or finished with that much left, and the registry had room |
| WorkerRegistry.CancelAnswersExactly | python-service/src/analysis_jobs.py:74-86 | cancelling says running, cancelled or full as the entry stands, and marks the entry unless full |
| WorkerRegistry.MarkedStaysMarked | python-service/src/analysis_jobs.py:74-86 | a mark is never taken back in any run |
| WorkerRegistry.AdmissionExactly | python-service/src/analysis_jobs.py:151-161 | an admission is accepted if and only if the key is not held, fewer than 256 entries are and fewer than two jobs are active |
| WorkerRegistry.CancelledKeyStartsNothing | python-service/src/analysis_jobs.py:74-86 | after such a cancellation no worker of the key comes to life within the time to live, in any run, submitted before or not |
| WorkerRegistry.OnlyAdmissionStarts | python-service/src/analysis_jobs.py:151-168 | a worker of a key comes to life in a step if and only if that step admits the key and its process starts |
| WorkerRegistry.FinishedEntryLapses | python-service/src/analysis_jobs.py:45-49 | a finished entry that expires in time lets a worker of its key start, as long as a slot is or can become free |
| WorkerRegistry.CancellationLapsesExactly | python-service/src/analysis_jobs.py:74-86 | an accepted cancellation can be followed by a start of its key within the time to live if and only if its entry was finished with less than that left and a slot is or can become free |
| WorkerRegistry.LostExactly | python-service/src/analysis_jobs.py:161-263 | a slot is lost by two steps only: an admission whose pipe or process cannot be made, and a cleanup that raises before it released the job or handed it over |
| WorkerRegistry.HandedOverIsNeverLost | python-service/src/analysis_jobs.py:226-239 | a job the background owner has taken is never lost, whatever happens |
| WorkerRegistry.SlotComesBackExactly | python-service/src/analysis_jobs.py:161-263 | an occupied slot can be given back if and only if its job was not lost in one of those ways; a lost one is held for ever, even when its process dies |
| WorkerRegistry.StarvedForever | python-service/src/analysis_jobs.py:157-163 | once such jobs hold every slot, no later run admits anything |
| WorkerRegistry.AnalysisJobs.PruneRegistry | python-service/src/analysis_jobs.py:45-49 | drops exactly the finished entries past their expiry |
| WorkerRegistry.AnalysisJobs.CancelRequest | python-service/src/analysis_jobs.py:74-86 | new registry and answer of one cancellation |
| WorkerRegistry.AnalysisJobs.BusyWorkers | python-service/src/analysis_jobs.py:157-157 | the number of active entries |
| WorkerRegistry.AnalysisJobs.AdmitRun | python-service/src/analysis_jobs.py:151-169 | conflict, busy or a new active job with its worker started, failed or never tried, and the new registry |
| WorkerRegistry.AnalysisJobs.CleanupWorker | python-service/src/analysis_jobs.py:242-263 | which exceptions strike at which point; a struck job stays active without an owner, one seen gone or never started is released, any other is handed to the background owner with its slot kept |
| ResultCache.EvictIsShortestPrefix | python-service/src/analysis_jobs.py:70-71 | what is evicted is the shortest front part whose removal restores both bounds |
| ResultCache.RememberHolds | python-service/src/analysis_jobs.py:65-71 | afterwards both bounds hold, and the new body is held at the end if and only if it alone is within 32 MiB, so always for a result of at most 8 MiB, the most a worker may send |
| ResultCache.StoreKeepsExactly | python-service/src/analysis_jobs.py:65-71 | a store keeps a live entry of another key if and only if it fits with everything used since and the new entry; where all fit, nothing is lost |
| ResultCache.HistoryIsFaithful | python-service/src/analysis_jobs.py:45-71 | over any history: bounds hold, entries stand in order of last use, and each key holds the very entry stored last |
| ResultCache.CachedIsLastStored | python-service/src/analysis_jobs.py:55-62 | a hit is the body stored last under the key, within its lifetime |
| ResultCache.HeldExactly | python-service/src/analysis_jobs.py:45-71 | over any history a key is held if and only if neither its life nor room has ended it since its last store |
| ResultCache.HitExactly | python-service/src/analysis_jobs.py:55-62 | a body stored last under a key, not expired and never evicted for room, is a hit, and nothing else is |
| ResultCache.EvictionIsLeastRecentlyUsed | python-service/src/analysis_jobs.py:65-71 | every evicted live entry was used before every entry that stays |
| ResultCache.AnalysisCache.PruneEntries | python-service/src/analysis_jobs.py:50-52 | drops exactly the expired entries, keeping order |
| ResultCache.AnalysisCache.Cached | python-service/src/analysis_jobs.py:55-62 | answer and new order of one lookup |
| ResultCache.AnalysisCache.Remember | python-service/src/analysis_jobs.py:65-71 | new cache after one store |
| SseGrammar.ResplitExact | python-service/cli/client.py:241-241 | joining a block's lines and splitting them again gives the lines if and only if none holds one of the further separators |
| SseGrammar.ResplitIsHarmless | python-service/cli/client.py:235-267 | for streams free of those separators the client's reading is the standard's |
| SseGrammar.SeparatorInsideDataIsLost | python-service/cli/client.py:241-241 | a separator inside a data value cuts it: the client reads the text before it, and what follows as lines of their own, data only where they name data themselves |
| SseGrammar.DataSurvivesExactly | python-service/cli/client.py:241-257 | a data value reads back as itself if and only if it holds no separator that splitlines knows |
| SseGrammar.FieldWithColon | python-service/cli/client.py:244-246 | a field is split at its first colon and loses one leading space |
| SseGrammar.FieldWithoutColon | python-service/cli/client.py:244-249 | a line without a colon is a field of that name without a value |
| SseGrammar.EventIsItsData | python-service/cli/client.py:256-267 | an event is the JSON object of its data field by field; a nonempty name becomes its event and its type where it has none, an id its eventId, and nothing else changes, in every combination |
| SseGrammar.DataLinesAreJoined | python-service/cli/client.py:249-258 | several data lines are read as one text with line feeds between them |
| SseGrammar.LastFieldCounts | python-service/cli/client.py:249-255 | of several fields of a name the last counts, an id with NUL not at all |
| SseFramer.ParseSseEvent | python-service/cli/client.py:235-267 | the line loop reads a block as sections 9.2.5 and 9.2.6 say: all data values joined, last event name, last id without NUL |
| SseFramer.FeedIsFeedLf | python-service/cli/client.py:179-182 | remembering a carriage return across bytes and chunks equals reading CR, LF and CR LF as one terminator |
| SseFramer.FramerRefinesGrammar | python-service/cli/client.py:168-205 | byte-wise framing yields exactly the events and the ending that the line-and-block grammar gives the whole stream, failures included |
| SseFramer.FramerRefinesStandard | python-service/cli/client.py:168-205 | for streams free of further separators that is the standard's reading |
| SseFramer.FeedKeeps | python-service/cli/client.py:183-187 | at every byte what is buffered is within 16 MiB, events only grow, and none follows a terminal one |
| SseFramer.CleanEndIsTerminal | python-service/cli/client.py:199-205 | a clean end means exactly one terminal event, yielded last |
| SseFramer.ChunkingIsIrrelevant | python-service/cli/client.py:176-178 | cutting the same bytes into other chunks changes nothing |
| SseFramer.SseDecoder.Push | python-service/cli/client.py:178-203 | one byte |
| SseFramer.SseDecoder.FinishLine | python-service/cli/client.py:188-203 | one line terminator |
| SseFramer.SseDecoder.FinishBlock | python-service/cli/client.py:197-203 | one empty line |
| SseFramer.SseDecoder.PushChunk | python-service/cli/client.py:178-203 | one chunk, until a failure |
| SseFramer.SseDecoder.Finish | python-service/cli/client.py:204-205 | the end of the stream: clean only without leftovers and after a terminal event |
| SseFramer.DecodeSse | python-service/cli/client.py:168-205 | the outcome of any chunking is the meaning of the concatenation |
| ServerStream.FrameReadsBack | crates/zk-server/src/api/query_stream.rs:415-420 | a frame of event, id and data lines reads back as its data object with that name and event id |
| ServerStream.FrameCarriesItsData | crates/zk-server/src/api/query_stream.rs:415-420 | a frame reads back as its data object with every field and value, its name, its id, its name as type where it has none, and no other field |
| ServerStream.FrameDataSurvivesExactly | crates/zk-server/src/api/query_stream.rs:415-420 | the data values of a frame read back as its data if and only if the data holds none of those separators |
| ServerStream.StreamCarries | crates/zk-server/src/api/query_stream.rs:402-433 | a stream of frames with comments between them carries exactly the frames' events, with nothing left over |
| ServerStream.CutYieldsPrefix | python-service/cli/client.py:168-205 | any byte cut of a stream yields a prefix of its events and no failure |
| StreamClient.CursorSplits | python-service/cli/client.py:150-155 | the cursor the server prints passes the client's last-colon check and names its request |
| StreamClient.ResumeAfterCursor | crates/zk-server/src/api/query_stream.rs:248-266 | the server reads back the number the cursor was printed from |
| StreamClient.NextIsAccepted | python-service/cli/client.py:144-156 | the next event of the log is always accepted and moves the cursor right behind it |
| StreamClient.TakesOwnEventsExactly | python-service/cli/client.py:144-156 | a named client takes an event if and only if a start names its request and an id is one of its cursors; it then yields it as it is and moves its cursor, else the exact error |
| StreamClient.SessionStopsAtOnce | python-service/cli/client.py:136-143 | past its deadline the loop sends nothing more, and a refusal ends it with the request that met it |
| StreamClient.FirstStartNames | python-service/cli/client.py:145-149 | a client without a name takes it from the first start |
| StreamClient.RequestAsksForTheRest | python-service/cli/client.py:158-166 | each request asks for exactly what was not yet yielded |
| StreamClient.ExchangeKeepsStep | python-service/cli/client.py:136-166 | any cut of a response keeps yielded events and cursor in step with the log, and a return means the log is complete |
| StreamClient.DeliveredExactlyOnce | python-service/cli/client.py:118-166 | whatever is cut wherever: the numbered events yielded are a gap-free, duplicate-free prefix of the log, a normal return means the whole log, at most one POST and two resumes are sent, unnumbered expiry notices come only from a server that may expire and at most once a response, and only deadline, refusal or connection loss is reported |
| StreamClient.OneWholeResponseCompletes | python-service/cli/client.py:134-166 | if one of the three responses arrives whole and in time and those before it were lost after the request was named, the session returns with the whole log |
| ReplayServer.PublishedIsLog | crates/zk-server/src/api/query_stream.rs:415-420 | the frames the server publishes form a log of the request: numbered cursors, named request, completion exactly at the end |
| ReplayServer.TranscriptContinues | crates/zk-server/src/api/query_stream.rs:402-433 | any response of frames after a cursor with comments between them, ended or broken off by an expiry notice, is sendable and carries the rest of the log |
| ReplayServer.ReplayIsHonest | crates/zk-server/src/api/query_stream.rs:248-433 | the replaying server meets everything delivery is stated against |
| ReplayServer.DeliveredFromReplay | crates/zk-server/src/api/query_stream.rs:248-433 | exactly-once delivery from the published frames to the client's events, for every buffer, comment and cut |
| ReplayServer.DeliveredPayload | python-service/cli/client.py:118-166 | the k-th numbered event yielded is the k-th frame's data object with every field and value, under its name and cursor |
| ServerStream.UnreadableFrame | python-service/cli/client.py:241-261 | a frame whose value, cut at a separator, is no JSON object fails the client with the error of what is left of it |
| BrokenStream.CutBeforeBreak | python-service/cli/client.py:168-205 | any cut of a stream that breaks yields a prefix of the events before the break, and all of them once it fails |
| BrokenStream.RepliesAreHonestUpTo | crates/zk-server/src/api/query_stream.rs:248-433 | the replaying server that has published an unreadable frame answers every request up to that frame and breaks there |
| BrokenStream.DeliveredUpToUnreadableFrame | python-service/cli/client.py:118-166 | whatever is cut wherever: the numbered events yielded are a gap-free, duplicate-free prefix of what precedes the unreadable frame, the session never completes, and where it fails for that frame all that precedes it was yielded |
| BrokenStream.FailsAtUnreadableFrame | python-service/cli/client.py:118-166 | if one of the three responses reaches the frame and those before it were lost ahead of it with the request named, the session fails with the frame's error and has yielded exactly what precedes it |
| StreamClient.StreamQuery.HandleEvent | python-service/cli/client.py:145-156 | acceptance or the exact error for one event |
| StreamClient.StreamQuery.HandleEvents | python-service/cli/client.py:144-156 | the events of one response, up to the first refusal |
| StreamClient.StreamQuery.Run | python-service/cli/client.py:134-166 | the reconnect loop's events, requests and ending |

## Left out

- Interaction delivery: how questions reach the user, option identifiers, retries and withdrawal; the service is a port
  that may answer anything, and only the answered record is read.
- Bash parsing, blacklist and risk rules, and the checks of declared outputs: the facts they find are inputs.
- Diagnostic payloads, summaries, redaction and log output.
- SHA-256, JSON printing and parsing, UTF-8: opaque, with injectivity or round trip stated where used.
- Real SQLite, threads, HTTP, subprocesses and files: atomic steps, maps, abstract functions and explicit hypotheses.
- Grants.GrantStore.FindMatchAt: rows equal in scope and creation time are taken in row order, where SQL leaves their
  order open; the theorems do not depend on it.
- Constraints.ConstraintRoundTrip: constraints are JSON values with one value per field; duplicate keys and number
  printing of foreign JSON are a parameter.
- Ancestry.AuthorizationSubjectResolver.Resolve: the narrowing of a subject to a managed worktree and how a working
  directory becomes a workspace are an abstract function.
- Ancestry.RootForExact: stated for any depth bound; the source's bound of 32 enters in Resolve.
- PathBinding.ExecutedInputPassesRecheck: covers the file tools that name one path; Glob and Grep take their recursive
  roots through a further check that is not modelled. Fields of an input are texts, as the tools' schemas have them, and
  paths are text, so lossy non-UTF-8 names are not represented.
- PathSecurity.ResolvedNameChecksNoWorse: device, kernel, credential and system-directory lists are parameters of the
  policy; the Windows-only test is inactive on the supported platform and absent.
- BrowserRecordings.ConsumedOnlyWithEvidence: evidence rows are only added, except by the deletion of their session;
  recordings whose stored phase is missing altogether are not represented, and the size limit of the stored text is a
  parameter.
- BrowserRecordings.ValidateRecoveryDispositions: reading and hashing an archived blob is a parameter.
- ArtifactInvalidation.ArtifactStore.InvalidateVerification: reason texts and event identifiers are not represented.
- ArtifactRecords.ArtifactRegistry.RecordProducedFile: encryption of hashes in ephemeral content is not represented.
- ShellPublication.PublishDeclared: reading the declarations out of the persisted input is a parameter.
- ArtifactTerminal.AtMostOneReceipt: other writers may replace manifests and projections by anything, but do not delete
  receipts.
- WorkerRegistry.BoundsAlwaysHold: a start that raises is taken to leave no process. What a worker computes or how its
  result travels is left out, and so are the reaper's retry delays.
- WorkerRegistry.LostExactly: the background owner is taken to raise only the exceptions it catches.
- BrokenStream.FailsAtUnreadableFrame: stated where no cursor expires; a cut value that still is a JSON object would be
  yielded as such and is not followed further.
- Ancestry.ClearForgets: nothing in the repository clears the cache, and a walk made before a change of ancestry but
  stored after the clear is outside the statement.
- ResultCache.HistoryIsFaithful: the clock may return any values; what a body holds is not interpreted.
- ReplayServer.ReplayIsHonest: which frames the bounded buffer still holds and when a response ends are free; how many
  readers there are and when an execution is dropped are absent, a dropped one appears as a refusal.
- StreamClient.DeliveredExactlyOnce: a request identity that is neither text nor absent is taken as not resumable, and
  the server's reading of cursors has no 64-bit limit.
- Frontend, scripts, installers, doctor, feature flags, configuration, checkpoints, migrations, memory content store:
  no further protocol of comparable depth.
