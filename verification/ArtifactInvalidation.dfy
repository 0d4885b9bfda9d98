/**
 Invalidating verification when an artifact changed (crates/zk-db/src/artifact.rs): the owning
 task, all its ancestors and everything verified on their runs become stale in one write.
 */
module ArtifactInvalidation {
  import opened Wrappers
  import opened Ordering

  datatype VerificationStatus = NotVerified | Verifying | Verified | FailedCheck | Stale

  datatype Verdict = Pending | VerdictVerified | VerdictFailed | Inconclusive | Unavailable | VerdictStale

  datatype Origin = Machine | ModelAssertion | Human

  datatype Task = Task(parent: Option<string>, status: VerificationStatus, version: nat, updatedAt: int)

  datatype RunRow = RunRow(task: string, status: VerificationStatus, version: nat, updatedAt: int)

  datatype Criterion = Criterion(bundle: Option<string>, notVerified: bool, status: string, updatedAt: int)

  datatype Bundle = Bundle(run: Option<string>, verdict: Verdict, origin: Origin)

  datatype VerdictEvent = VerdictEvent(version: nat, verdict: Verdict, byArtifactIntegrity: bool,
      effectiveOrigin: Origin, createdAt: int)

  /** A verification_stale event on a run. */
  datatype RunEvent = RunEvent(run: string, manifest: string, sourceRun: string)

  datatype Tables = Tables(
    tasks: map<string, Task>,
    runs: map<string, RunRow>,
    criteria: map<string, Criterion>,
    bundles: map<string, Bundle>,
    verdicts: map<string, seq<VerdictEvent>>,
    runEvents: seq<RunEvent>)

  /** Every bundle has its event list, numbered from one. */
  predicate Valid(s: Tables) {
    && s.bundles.Keys == s.verdicts.Keys
    && forall b :: b in s.verdicts ==> forall i :: 0 <= i < |s.verdicts[b]| ==> s.verdicts[b][i].version == i + 1
  }

  // ---------- ancestors ----------

  function ParentOf(tasks: map<string, Task>, t: string): Option<string> {
    if t in tasks then tasks[t].parent else None
  }

  /** k parent links up from a task. */
  function Up(tasks: map<string, Task>, t: string, k: nat): Option<string> {
    if k == 0 then Some(t)
    else match Up(tasks, t, k - 1)
      case None => None
      case Some(a) => ParentOf(tasks, a)
  }

  ghost predicate Reaches(tasks: map<string, Task>, t: string, a: string) {
    exists k: nat :: Up(tasks, t, k) == Some(a)
  }

  /** The recursive query's worklist: stop at a parentless task or at one already found. */
  function Climb(tasks: map<string, Task>, cursor: Option<string>, found: set<string>): set<string>
    decreases |tasks.Keys - found|, if cursor.Some? then 1 else 0
  {
    if cursor.None? || cursor.value in found then found
    else
      assert cursor.value in tasks ==> tasks.Keys - (found + {cursor.value}) == (tasks.Keys - found) - {cursor.value};
      assert cursor.value !in tasks ==> tasks.Keys - (found + {cursor.value}) == tasks.Keys - found;
      Climb(tasks, ParentOf(tasks, cursor.value), found + {cursor.value})
  }

  function SourceTask(s: Tables, sourceRun: string): Option<string> {
    if sourceRun in s.runs then Some(s.runs[sourceRun].task) else None
  }

  function StaleTasks(s: Tables, sourceRun: string): set<string> { Climb(s.tasks, SourceTask(s, sourceRun), {}) }

  function StaleRuns(s: Tables, sourceRun: string): set<string> {
    set r | r in s.runs && s.runs[r].task in StaleTasks(s, sourceRun)
  }

  /** What was found so far is a stretch of the chain, and the cursor is its next link. */
  ghost predicate Stretch(tasks: map<string, Task>, t: string, cursor: Option<string>, found: set<string>, n: nat) {
    && cursor == Up(tasks, t, n)
    && (forall k :: 0 <= k < n ==> Up(tasks, t, k).Some? && Up(tasks, t, k).value in found)
    && (forall a :: a in found ==> exists k :: 0 <= k < n && Up(tasks, t, k) == Some(a))
  }

  lemma {:induction false} UpShifts(tasks: map<string, Task>, t: string, i: nat, n: nat, m: nat)
    requires Up(tasks, t, i) == Up(tasks, t, n)
    ensures Up(tasks, t, i + m) == Up(tasks, t, n + m)
    decreases m
  {
    if m > 0 { UpShifts(tasks, t, i, n, m - 1); }
  }

  /** Once the chain ends or repeats, nothing new comes. */
  lemma {:induction false} StretchIsAll(tasks: map<string, Task>, t: string, cursor: Option<string>,
      found: set<string>, n: nat, k: nat)
    requires Stretch(tasks, t, cursor, found, n) && (cursor.None? || cursor.value in found)
    ensures Up(tasks, t, k).Some? ==> Up(tasks, t, k).value in found
    decreases k
  {
    if k >= n && Up(tasks, t, k).Some? {
      if cursor.None? {
        NoneStays(tasks, t, n, k - n);
        assert false;
      } else {
        var i :| 0 <= i < n && Up(tasks, t, i) == Some(cursor.value);
        UpShifts(tasks, t, i, n, k - n);
        StretchIsAll(tasks, t, cursor, found, n, i + (k - n));
      }
    }
  }

  lemma {:induction false} NoneStays(tasks: map<string, Task>, t: string, n: nat, m: nat)
    requires Up(tasks, t, n) == None
    ensures Up(tasks, t, n + m) == None
    decreases m
  {
    if m > 0 { NoneStays(tasks, t, n, m - 1); }
  }

  lemma StretchGrows(tasks: map<string, Task>, t: string, cursor: string, found: set<string>, n: nat)
    requires Stretch(tasks, t, Some(cursor), found, n)
    ensures Stretch(tasks, t, ParentOf(tasks, cursor), found + {cursor}, n + 1)
  {
    forall a | a in found + {cursor} ensures exists k :: 0 <= k < n + 1 && Up(tasks, t, k) == Some(a) {
      if a in found {
        var k :| 0 <= k < n && Up(tasks, t, k) == Some(a);
      } else {
        assert Up(tasks, t, n) == Some(a);
      }
    }
  }

  lemma {:induction false} ClimbIsReach(tasks: map<string, Task>, t: string, cursor: Option<string>,
      found: set<string>, n: nat)
    requires Stretch(tasks, t, cursor, found, n)
    ensures forall a :: a in Climb(tasks, cursor, found) <==> Reaches(tasks, t, a)
    decreases |tasks.Keys - found|, if cursor.Some? then 1 else 0
  {
    if cursor.None? || cursor.value in found {
      forall a | Reaches(tasks, t, a) ensures a in found {
        var k: nat :| Up(tasks, t, k) == Some(a);
        StretchIsAll(tasks, t, cursor, found, n, k);
      }
    } else {
      StretchGrows(tasks, t, cursor.value, found, n);
      assert cursor.value in tasks ==> tasks.Keys - (found + {cursor.value}) == (tasks.Keys - found) - {cursor.value};
      assert cursor.value !in tasks ==> tasks.Keys - (found + {cursor.value}) == tasks.Keys - found;
      ClimbIsReach(tasks, t, ParentOf(tasks, cursor.value), found + {cursor.value}, n + 1);
    }
  }

  /** The stale tasks are exactly the source run's task and its ancestors, cyclic data included. */
  lemma StaleTasksAreAncestors(s: Tables, sourceRun: string)
    ensures forall a :: a in StaleTasks(s, sourceRun) <==>
              sourceRun in s.runs && Reaches(s.tasks, s.runs[sourceRun].task, a)
  {
    if sourceRun in s.runs {
      var t := s.runs[sourceRun].task;
      assert Stretch(s.tasks, t, Some(t), {}, 0);
      ClimbIsReach(s.tasks, t, Some(t), {}, 0);
    }
  }

  // ---------- the write ----------

  /** The latest event overrides what the bundle was stored with. */
  function LatestVerdict(bundle: Bundle, events: seq<VerdictEvent>): Verdict {
    if events == [] then bundle.verdict else events[|events| - 1].verdict
  }

  function LatestOrigin(bundle: Bundle, events: seq<VerdictEvent>): Origin {
    if events == [] then bundle.origin else events[|events| - 1].effectiveOrigin
  }

  function EffectiveVerdict(s: Tables, b: string): Verdict
    requires b in s.bundles && b in s.verdicts
  {
    LatestVerdict(s.bundles[b], s.verdicts[b])
  }

  function EffectiveOrigin(s: Tables, b: string): Origin
    requires b in s.bundles && b in s.verdicts
  {
    LatestOrigin(s.bundles[b], s.verdicts[b])
  }

  predicate RestsOn(c: Criterion, bundles: map<string, Bundle>, staleRuns: set<string>) {
    && c.bundle.Some? && c.bundle.value in bundles
    && bundles[c.bundle.value].run.Some? && bundles[c.bundle.value].run.value in staleRuns
  }

  predicate BackedByStaleRun(s: Tables, sourceRun: string, b: string) {
    b in s.bundles && s.bundles[b].run.Some? && s.bundles[b].run.value in StaleRuns(s, sourceRun)
  }

  /** Evidence of a stale run whose verdict still says something. */
  predicate IsOutdated(bundle: Bundle, events: seq<VerdictEvent>, staleRuns: set<string>) {
    && bundle.run.Some? && bundle.run.value in staleRuns
    && LatestOrigin(bundle, events) in {Machine, Human}
    && LatestVerdict(bundle, events) !in {Pending, VerdictStale}
  }

  predicate Outdated(s: Tables, sourceRun: string, b: string)
    requires Valid(s)
  {
    b in s.bundles && IsOutdated(s.bundles[b], s.verdicts[b], StaleRuns(s, sourceRun))
  }

  function StaleTask(t: Task, now: int): Task {
    if t.status == Stale then t else t.(status := Stale, version := t.version + 1, updatedAt := now)
  }

  function StaleRun(r: RunRow, now: int): RunRow {
    if r.status == Stale then r else r.(status := Stale, version := r.version + 1, updatedAt := now)
  }

  function ResetCriterion(c: Criterion, now: int): Criterion {
    if c.notVerified then c else Criterion(c.bundle, true, "not_verified", now)
  }

  /** The next version says stale; who vouches for the bundle does not change. */
  function Superseded(bundle: Bundle, events: seq<VerdictEvent>, staleRuns: set<string>, now: int): seq<VerdictEvent> {
    if !IsOutdated(bundle, events, staleRuns) then events
    else
      var version := if events == [] then 1 else events[|events| - 1].version + 1;
      events + [VerdictEvent(version, VerdictStale, true, LatestOrigin(bundle, events), now)]
  }

  function ChangedRuns(s: Tables, sourceRun: string): set<string> {
    set r | r in StaleRuns(s, sourceRun) && s.runs[r].status != Stale
  }

  function StaleEvents(runs: seq<string>, manifest: string, sourceRun: string): seq<RunEvent> {
    seq(|runs|, i requires 0 <= i < |runs| => RunEvent(runs[i], manifest, sourceRun))
  }

  /** Everything the write changes; all conditions are read before any of it. */
  ghost function Invalidated(s: Tables, manifest: string, sourceRun: string, now: int): Tables
    requires Valid(s)
  {
    Tables(
      map t | t in s.tasks :: if t in StaleTasks(s, sourceRun) then StaleTask(s.tasks[t], now) else s.tasks[t],
      map r | r in s.runs :: if r in StaleRuns(s, sourceRun) then StaleRun(s.runs[r], now) else s.runs[r],
      map c | c in s.criteria ::
        if RestsOn(s.criteria[c], s.bundles, StaleRuns(s, sourceRun)) then ResetCriterion(s.criteria[c], now)
        else s.criteria[c],
      s.bundles,
      map b | b in s.verdicts :: Superseded(s.bundles[b], s.verdicts[b], StaleRuns(s, sourceRun), now),
      s.runEvents + StaleEvents(Sorted(ChangedRuns(s, sourceRun)), manifest, sourceRun))
  }

  // ---------- what it means ----------

  lemma {:induction false} SameParentsSameUp(a: map<string, Task>, b: map<string, Task>, t: string, k: nat)
    requires forall x :: ParentOf(a, x) == ParentOf(b, x)
    ensures Up(a, t, k) == Up(b, t, k)
  {
    if k > 0 { SameParentsSameUp(a, b, t, k - 1); }
  }

  /** Invalidation moves no task and no run, so every closure stays what it was. */
  lemma ClosureIsKept(s: Tables, manifest: string, sourceRun: string, now: int, other: string)
    requires Valid(s)
    ensures StaleTasks(Invalidated(s, manifest, sourceRun, now), other) == StaleTasks(s, other)
    ensures StaleRuns(Invalidated(s, manifest, sourceRun, now), other) == StaleRuns(s, other)
    ensures forall b :: BackedByStaleRun(Invalidated(s, manifest, sourceRun, now), other, b) <==>
        BackedByStaleRun(s, other, b)
  {
    var after := Invalidated(s, manifest, sourceRun, now);
    StaleTasksAreAncestors(s, other);
    StaleTasksAreAncestors(after, other);
    forall x ensures ParentOf(after.tasks, x) == ParentOf(s.tasks, x) { }
    forall t: string, a: string ensures Reaches(after.tasks, t, a) <==> Reaches(s.tasks, t, a) {
      if Reaches(s.tasks, t, a) {
        var k: nat :| Up(s.tasks, t, k) == Some(a);
        SameParentsSameUp(s.tasks, after.tasks, t, k);
      }
      if Reaches(after.tasks, t, a) {
        var k: nat :| Up(after.tasks, t, k) == Some(a);
        SameParentsSameUp(s.tasks, after.tasks, t, k);
      }
    }
    assert StaleTasks(after, other) == StaleTasks(s, other);
  }

  lemma InvalidatedIsValid(s: Tables, manifest: string, sourceRun: string, now: int)
    requires Valid(s)
    ensures Valid(Invalidated(s, manifest, sourceRun, now))
  {
    var after := Invalidated(s, manifest, sourceRun, now);
    assert after.verdicts.Keys == s.verdicts.Keys;
  }

  /** The tables say nothing any more on the strength of the changed artifact. */
  ghost predicate Retracted(s: Tables, sourceRun: string) {
    && Valid(s)
    && (forall t :: t in StaleTasks(s, sourceRun) && t in s.tasks ==> s.tasks[t].status == Stale)
    && (forall r :: r in StaleRuns(s, sourceRun) ==> s.runs[r].status == Stale)
    && (forall b :: BackedByStaleRun(s, sourceRun, b) && EffectiveOrigin(s, b) in {Machine, Human} ==>
          EffectiveVerdict(s, b) in {Pending, VerdictStale})
    && (forall c :: c in s.criteria && s.criteria[c].bundle.Some?
                    && BackedByStaleRun(s, sourceRun, s.criteria[c].bundle.value) ==>
          s.criteria[c].notVerified)
  }

  lemma InvalidationRetracts(s: Tables, manifest: string, sourceRun: string, now: int)
    requires Valid(s)
    ensures Retracted(Invalidated(s, manifest, sourceRun, now), sourceRun)
  {
    var after := Invalidated(s, manifest, sourceRun, now);
    ClosureIsKept(s, manifest, sourceRun, now, sourceRun);
    InvalidatedIsValid(s, manifest, sourceRun, now);
    forall b | BackedByStaleRun(after, sourceRun, b) && EffectiveOrigin(after, b) in {Machine, Human}
      ensures EffectiveVerdict(after, b) in {Pending, VerdictStale}
    {
      assert BackedByStaleRun(s, sourceRun, b);
      assert after.verdicts[b] == Superseded(s.bundles[b], s.verdicts[b], StaleRuns(s, sourceRun), now);
    }
  }

  /** Tables that are already retracted are left alone: no version moves and no event is written. */
  lemma RetractedIsFixed(s: Tables, manifest: string, sourceRun: string, now: int)
    requires Retracted(s, sourceRun)
    ensures Invalidated(s, manifest, sourceRun, now) == s
  {
    var after := Invalidated(s, manifest, sourceRun, now);
    assert after.tasks == s.tasks;
    assert after.runs == s.runs;
    assert after.criteria == s.criteria;
    forall b | b in s.verdicts ensures after.verdicts[b] == s.verdicts[b] {
      assert Outdated(s, sourceRun, b) ==> BackedByStaleRun(s, sourceRun, b);
    }
    assert after.verdicts == s.verdicts;
    assert ChangedRuns(s, sourceRun) == {};
    SortedLength(ChangedRuns(s, sourceRun), Sorted(ChangedRuns(s, sourceRun)));
  }

  /** A second invalidation, whenever it comes and whatever manifest it names, changes nothing. */
  lemma InvalidationIsIdempotent(s: Tables, manifest: string, other: string, sourceRun: string, now: int, later: int)
    requires Valid(s)
    ensures var once := Invalidated(s, manifest, sourceRun, now);
      Valid(once) && Invalidated(once, other, sourceRun, later) == once
  {
    InvalidationRetracts(s, manifest, sourceRun, now);
    RetractedIsFixed(Invalidated(s, manifest, sourceRun, now), other, sourceRun, later);
  }

  /**
   Exactly the closure is touched: outside it no row changes, inside it a row moves by one
   version if it was not stale, a bundle keeps who vouched for it, and each changed run gets one event.
   */
  lemma InvalidationIsFramed(s: Tables, manifest: string, sourceRun: string, now: int)
    requires Valid(s)
    ensures var after := Invalidated(s, manifest, sourceRun, now);
      && after.tasks.Keys == s.tasks.Keys && after.runs.Keys == s.runs.Keys && after.bundles == s.bundles
      && after.criteria.Keys == s.criteria.Keys && after.verdicts.Keys == s.verdicts.Keys
      && (forall t :: t in s.tasks ==> after.tasks[t].parent == s.tasks[t].parent)
      && (forall r :: r in s.runs ==> after.runs[r].task == s.runs[r].task)
      && (forall c :: c in s.criteria ==> after.criteria[c].bundle == s.criteria[c].bundle)
      && (forall c :: c in s.criteria ==>
            (after.criteria[c] != s.criteria[c] <==>
               RestsOn(s.criteria[c], s.bundles, StaleRuns(s, sourceRun)) && !s.criteria[c].notVerified))
      && (forall b :: b in s.verdicts ==> (after.verdicts[b] != s.verdicts[b] <==> Outdated(s, sourceRun, b)))
      && (forall t :: t in s.tasks ==>
            (after.tasks[t] != s.tasks[t] <==> t in StaleTasks(s, sourceRun) && s.tasks[t].status != Stale)
            && after.tasks[t].version == s.tasks[t].version + if after.tasks[t] != s.tasks[t] then 1 else 0)
      && (forall r :: r in s.runs ==>
            (after.runs[r] != s.runs[r] <==> r in ChangedRuns(s, sourceRun))
            && after.runs[r].version == s.runs[r].version + if r in ChangedRuns(s, sourceRun) then 1 else 0)
      && s.runEvents <= after.runEvents
      && (forall r :: r in ChangedRuns(s, sourceRun) <==>
            RunEvent(r, manifest, sourceRun) in after.runEvents[|s.runEvents|..])
      && |after.runEvents| == |s.runEvents| + |ChangedRuns(s, sourceRun)|
  {
    var after := Invalidated(s, manifest, sourceRun, now);
    var ids := Sorted(ChangedRuns(s, sourceRun));
    var events := StaleEvents(ids, manifest, sourceRun);
    SortedLength(ChangedRuns(s, sourceRun), ids);
    assert after.runEvents[|s.runEvents|..] == events;
    forall b | b in s.verdicts ensures after.verdicts[b] != s.verdicts[b] <==> Outdated(s, sourceRun, b) {
      assert Outdated(s, sourceRun, b) ==> |after.verdicts[b]| == |s.verdicts[b]| + 1;
    }
    forall r ensures r in ChangedRuns(s, sourceRun) <==> RunEvent(r, manifest, sourceRun) in events {
      if r in ids {
        var i :| 0 <= i < |ids| && ids[i] == r;
        assert events[i] == RunEvent(r, manifest, sourceRun);
      }
    }
  }

  /**
   A criterion loses its status exactly when it rests on evidence of a stale run, and afterwards
   none that does claims anything; what a criterion rests on never changes.
   */
  lemma CriteriaAreFramed(s: Tables, manifest: string, sourceRun: string, now: int, c: string)
    requires Valid(s) && c in s.criteria
    ensures var before, after := s.criteria[c], Invalidated(s, manifest, sourceRun, now).criteria;
      && c in after && after[c].bundle == before.bundle
      && (after[c] != before <==>
            before.bundle.Some? && BackedByStaleRun(s, sourceRun, before.bundle.value) && !before.notVerified)
      && (before.bundle.Some? && BackedByStaleRun(s, sourceRun, before.bundle.value) ==> after[c].notVerified)
  {
  }

  /**
   What each changed row says afterwards: tasks and runs stale since now, criteria not verified since
   now, and an outdated bundle one further version saying stale, on behalf of whoever vouched for it.
   */
  lemma InvalidationSaysStale(s: Tables, manifest: string, sourceRun: string, now: int)
    requires Valid(s)
    ensures var after := Invalidated(s, manifest, sourceRun, now);
      && (forall t :: t in s.tasks && after.tasks[t] != s.tasks[t] ==>
            after.tasks[t] == s.tasks[t].(status := Stale, version := s.tasks[t].version + 1, updatedAt := now))
      && (forall r :: r in s.runs && after.runs[r] != s.runs[r] ==>
            after.runs[r] == s.runs[r].(status := Stale, version := s.runs[r].version + 1, updatedAt := now))
      && (forall c :: c in s.criteria && after.criteria[c] != s.criteria[c] ==>
            after.criteria[c] == Criterion(s.criteria[c].bundle, true, "not_verified", now))
      && Valid(after)
      && (forall b :: Outdated(s, sourceRun, b) ==>
            && EffectiveVerdict(after, b) == VerdictStale && EffectiveOrigin(after, b) == EffectiveOrigin(s, b)
            && |after.verdicts[b]| == |s.verdicts[b]| + 1 && s.verdicts[b] <= after.verdicts[b]
            && var last := after.verdicts[b][|s.verdicts[b]|];
               && last.byArtifactIntegrity && last.createdAt == now
               && last.version == if s.verdicts[b] == [] then 1 else s.verdicts[b][|s.verdicts[b]| - 1].version + 1)
  {
    InvalidatedIsValid(s, manifest, sourceRun, now);
    var after := Invalidated(s, manifest, sourceRun, now);
    forall b | Outdated(s, sourceRun, b)
      ensures EffectiveVerdict(after, b) == VerdictStale && s.verdicts[b] <= after.verdicts[b]
    {
      assert after.verdicts[b] == Superseded(s.bundles[b], s.verdicts[b], StaleRuns(s, sourceRun), now);
    }
  }

  /** By parent links alone: whose status an artifact of the source run puts at stake. */
  ghost predicate AtStake(s: Tables, sourceRun: string, task: string) {
    sourceRun in s.runs && Reaches(s.tasks, s.runs[sourceRun].task, task)
  }

  /** Afterwards a task or run is stale exactly if it was, or if the source run's task reaches it or its task. */
  lemma StaleExactly(s: Tables, manifest: string, sourceRun: string, now: int)
    requires Valid(s)
    ensures var after := Invalidated(s, manifest, sourceRun, now);
      && (forall t :: t in s.tasks ==>
            (after.tasks[t].status == Stale <==> s.tasks[t].status == Stale || AtStake(s, sourceRun, t)))
      && (forall r :: r in s.runs ==>
            (after.runs[r].status == Stale <==> s.runs[r].status == Stale || AtStake(s, sourceRun, s.runs[r].task)))
      && (forall c :: c in s.criteria ==>
            (after.criteria[c].notVerified <==>
               s.criteria[c].notVerified
               || (s.criteria[c].bundle.Some? && Backed(s, sourceRun, s.criteria[c].bundle.value))))
    ensures forall b :: BackedByStaleRun(s, sourceRun, b) <==> Backed(s, sourceRun, b)
  {
    StaleTasksAreAncestors(s, sourceRun);
    forall b ensures BackedByStaleRun(s, sourceRun, b) <==> Backed(s, sourceRun, b) { }
  }

  ghost predicate Backed(s: Tables, sourceRun: string, b: string) {
    && b in s.bundles && s.bundles[b].run.Some? && s.bundles[b].run.value in s.runs
    && AtStake(s, sourceRun, s.runs[s.bundles[b].run.value].task)
  }

  /** Evidence is outdated exactly if a machine or a human vouched for it in a stale run and it still says something. */
  lemma OutdatedExactly(s: Tables, sourceRun: string, b: string)
    requires Valid(s)
    ensures Outdated(s, sourceRun, b) <==>
              && BackedByStaleRun(s, sourceRun, b)
              && (EffectiveOrigin(s, b) == Machine || EffectiveOrigin(s, b) == Human)
              && EffectiveVerdict(s, b) != Pending && EffectiveVerdict(s, b) != VerdictStale
  {
  }

  /** Who vouched for a bundle does not change with its verdict. */
  lemma OriginIsKept(s: Tables, manifest: string, sourceRun: string, now: int, b: string)
    requires Valid(s) && b in s.bundles
    ensures Valid(Invalidated(s, manifest, sourceRun, now))
    ensures EffectiveOrigin(Invalidated(s, manifest, sourceRun, now), b) == EffectiveOrigin(s, b)
    ensures !Outdated(s, sourceRun, b) ==>
              Invalidated(s, manifest, sourceRun, now).verdicts[b] == s.verdicts[b]
  {
    InvalidatedIsValid(s, manifest, sourceRun, now);
  }

  /** What one invalidation retracted, no other gives back. */
  lemma RetractedStays(s: Tables, manifest: string, sourceRun: string, now: int, other: string)
    requires Retracted(s, other)
    ensures Retracted(Invalidated(s, manifest, sourceRun, now), other)
  {
    var after := Invalidated(s, manifest, sourceRun, now);
    ClosureIsKept(s, manifest, sourceRun, now, other);
    InvalidatedIsValid(s, manifest, sourceRun, now);
    forall b | BackedByStaleRun(after, other, b) && EffectiveOrigin(after, b) in {Machine, Human}
      ensures EffectiveVerdict(after, b) in {Pending, VerdictStale}
    {
      OriginIsKept(s, manifest, sourceRun, now, b);
      assert BackedByStaleRun(s, other, b);
      assert after.verdicts[b] == Superseded(s.bundles[b], s.verdicts[b], StaleRuns(s, sourceRun), now);
    }
  }

  /** The pieces of the write make up the whole. */
  lemma PiecesAreInvalidated(s: Tables, manifest: string, sourceRun: string, now: int, after: Tables)
    requires Valid(s) && after.bundles == s.bundles
    requires after.tasks == map t | t in s.tasks ::
               if t in StaleTasks(s, sourceRun) then StaleTask(s.tasks[t], now) else s.tasks[t]
    requires after.runs == map r | r in s.runs ::
               if r in StaleRuns(s, sourceRun) then StaleRun(s.runs[r], now) else s.runs[r]
    requires after.criteria == map c | c in s.criteria ::
               if RestsOn(s.criteria[c], s.bundles, StaleRuns(s, sourceRun)) then ResetCriterion(s.criteria[c], now)
               else s.criteria[c]
    requires after.verdicts == map b | b in s.verdicts ::
               Superseded(s.bundles[b], s.verdicts[b], StaleRuns(s, sourceRun), now)
    requires after.runEvents == s.runEvents + StaleEvents(Sorted(ChangedRuns(s, sourceRun)), manifest, sourceRun)
    ensures after == Invalidated(s, manifest, sourceRun, now)
  {
    var goal := Invalidated(s, manifest, sourceRun, now);
    assert after.tasks == goal.tasks;
    assert after.runs == goal.runs;
    assert after.criteria == goal.criteria;
    assert after.verdicts == goal.verdicts;
  }

  // ---------- the transaction ----------

  class ArtifactStore {
    var tasks: map<string, Task>
    var runs: map<string, RunRow>
    var criteria: map<string, Criterion>
    var bundles: map<string, Bundle>
    var verdicts: map<string, seq<VerdictEvent>>
    var runEvents: seq<RunEvent>

    ghost function Contents(): Tables reads this { Tables(tasks, runs, criteria, bundles, verdicts, runEvents) }

    constructor (s: Tables)
      ensures Contents() == s
    {
      tasks, runs, criteria := s.tasks, s.runs, s.criteria;
      bundles, verdicts, runEvents := s.bundles, s.verdicts, s.runEvents;
    }

    /** The first temporary table: the recursive query over parent links. */
    method CollectStaleTasks(sourceRun: string) returns (found: set<string>)
      ensures found == StaleTasks(Contents(), sourceRun)
    {
      found := {};
      var cursor := if sourceRun in runs then Some(runs[sourceRun].task) else None;
      while cursor.Some? && cursor.value !in found
        invariant Climb(tasks, cursor, found) == StaleTasks(Contents(), sourceRun)
        decreases |tasks.Keys - found|, if cursor.Some? then 1 else 0
      {
        ghost var t := cursor.value;
        assert t in tasks ==> tasks.Keys - (found + {t}) == (tasks.Keys - found) - {t};
        assert t !in tasks ==> tasks.Keys - (found + {t}) == tasks.Keys - found;
        found := found + {cursor.value};
        cursor := ParentOf(tasks, cursor.value);
      }
    }

    /** Ordered ids of the runs about to change, one insertion at a time. */
    method SortIds(ids: set<string>) returns (sorted: seq<string>)
      ensures sorted == Sorted(ids)
    {
      TextStrictTotal();
      sorted := [];
      var rest := ids;
      while rest != {}
        invariant rest <= ids && StrictlySorted(TextLess, sorted)
        invariant forall x :: x in sorted <==> x in ids && x !in rest
        decreases |rest|
      {
        var x :| x in rest;
        InsertKeepsOrder(TextLess, x, sorted);
        sorted := Insert(TextLess, x, sorted);
        rest := rest - {x};
      }
      SortedSetIsUnique(TextLess, sorted, Sorted(ids));
    }

    /** One new event for every bundle whose verdict still says something. */
    method AppendStaleVerdicts(staleRuns: set<string>, now: int)
      requires Valid(Contents())
      modifies this`verdicts
      ensures verdicts == map b | b in old(verdicts) :: Superseded(bundles[b], old(verdicts)[b], staleRuns, now)
    {
      ghost var start := verdicts;
      var rest := verdicts.Keys;
      while rest != {}
        invariant rest <= start.Keys == verdicts.Keys == bundles.Keys
        invariant forall b :: b in rest ==> verdicts[b] == start[b]
        invariant forall b :: b in start && b !in rest ==>
            verdicts[b] == Superseded(bundles[b], start[b], staleRuns, now)
        decreases |rest|
      {
        var b :| b in rest;
        rest := rest - {b};
        verdicts := verdicts[b := Superseded(bundles[b], verdicts[b], staleRuns, now)];
      }
    }

    /** Criteria backed by the evidence of a stale run. */
    method ResetCriteria(staleRuns: set<string>, now: int)
      modifies this`criteria
      ensures criteria.Keys == old(criteria).Keys
      ensures forall c :: c in criteria && RestsOn(criteria[c], bundles, staleRuns) ==> criteria[c].notVerified
      ensures forall c :: c in criteria ==> criteria[c].bundle == old(criteria)[c].bundle
      ensures forall c :: c in criteria ==>
                (criteria[c] != old(criteria)[c] <==>
                   RestsOn(old(criteria)[c], bundles, staleRuns) && !old(criteria)[c].notVerified)
      ensures criteria == map c | c in old(criteria) ::
                if RestsOn(old(criteria)[c], bundles, staleRuns) then ResetCriterion(old(criteria)[c], now)
                else old(criteria)[c]
    {
      criteria := map c | c in criteria ::
        if RestsOn(criteria[c], bundles, staleRuns) then ResetCriterion(criteria[c], now) else criteria[c];
    }

    method MarkTasks(staleTasks: set<string>, now: int)
      modifies this`tasks
      ensures tasks == map t | t in old(tasks) ::
                if t in staleTasks then StaleTask(old(tasks)[t], now) else old(tasks)[t]
    {
      tasks := map t | t in tasks :: if t in staleTasks then StaleTask(tasks[t], now) else tasks[t];
    }

    method MarkRuns(staleRuns: set<string>, now: int)
      modifies this`runs
      ensures runs == map r | r in old(runs) :: if r in staleRuns then StaleRun(old(runs)[r], now) else old(runs)[r]
    {
      runs := map r | r in runs :: if r in staleRuns then StaleRun(runs[r], now) else runs[r];
    }

    /** One write: read the closure and the changed runs first, then change the rows, then write the events. */
    method InvalidateVerification(manifest: string, sourceRun: string, now: int)
      requires Valid(Contents())
      modifies this
      ensures Contents() == Invalidated(old(Contents()), manifest, sourceRun, now)
    {
      ghost var s := Contents();
      var staleTasks := CollectStaleTasks(sourceRun);
      var staleRuns := set r | r in runs && runs[r].task in staleTasks;
      assert staleRuns == StaleRuns(s, sourceRun);
      var changedIds := set r | r in staleRuns && runs[r].status != Stale;
      assert changedIds == ChangedRuns(s, sourceRun);
      var changed := SortIds(changedIds);
      ResetCriteria(staleRuns, now);
      AppendStaleVerdicts(staleRuns, now);
      MarkTasks(staleTasks, now);
      MarkRuns(staleRuns, now);
      runEvents := runEvents + StaleEvents(changed, manifest, sourceRun);
      PiecesAreInvalidated(s, manifest, sourceRun, now, Contents());
    }
  }
}
