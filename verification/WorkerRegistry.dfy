/**
 The bounded registry of analysis workers (python-service/src/analysis_jobs.py). Each locked
 section of run, cancel, cleanup and reaping is one step; process liveness is ghost state
 that only starting, dying and killing change.
 */
module WorkerRegistry {
  import opened Wrappers
  import opened Cardinalities

  const MAX_PROCESSES: nat := 2
  const MAX_REQUESTS: nat := 256
  const REQUEST_TTL_SECONDS: nat := 120

  /** Owner, project root and request identifier. */
  datatype Key = Key(owner: string, projectRoot: string, requestId: string)

  datatype Job = Job(key: Key, cancelled: bool, active: bool, expires: int)

  /** Where the run that owns a job stands; an abandoned job has nobody left to release it. */
  datatype Phase =
    | Running
    | Cleaning(started: bool)
    | Reaping
    | Confirmed(reaped: bool)
    | Released
    | NeverRan
    | Abandoned

  datatype Worker = Worker(phase: Phase, alive: bool)

  /** A job is known by its index; the registry points at the job that holds each key. */
  datatype State = State(now: int, registry: map<Key, nat>, jobs: seq<Job>, workers: seq<Worker>)

  predicate Registered(registry: map<Key, nat>, jobs: seq<Job>) {
    forall k :: k in registry ==> registry[k] < |jobs| && jobs[registry[k]].key == k
  }

  function ActiveKeys(registry: map<Key, nat>, jobs: seq<Job>): set<Key>
    requires Registered(registry, jobs)
  {
    set k | k in registry && jobs[registry[k]].active
  }

  predicate Kept(job: Job, now: int) { job.active || job.expires > now }

  function Prune(registry: map<Key, nat>, jobs: seq<Job>, now: int): map<Key, nat>
    requires Registered(registry, jobs)
  {
    map k | k in registry && Kept(jobs[registry[k]], now) :: registry[k]
  }

  datatype Admission = Accepted(id: nat) | Conflict | Busy

  function AdmissionFor(s: State, key: Key): Admission
    requires Registered(s.registry, s.jobs)
  {
    var registry := Prune(s.registry, s.jobs, s.now);
    if key in registry then Conflict
    else if |registry.Keys| >= MAX_REQUESTS || |ActiveKeys(registry, s.jobs)| >= MAX_PROCESSES then Busy
    else Accepted(|s.jobs|)
  }

  /**
   How the start after an admission goes. No other coroutine runs in between, and where the pipe
   or the process object cannot even be made, the exception passes the cleanup by.
   */
  datatype Launch = Started | StartFailed | NeverTried

  function Launched(launch: Launch): Worker {
    match launch
    case Started => Worker(Running, true)
    case StartFailed => Worker(Cleaning(false), false)
    case NeverTried => Worker(Abandoned, false)
  }

  function AfterAdmission(s: State, key: Key, launch: Launch): State
    requires Registered(s.registry, s.jobs)
  {
    var pruned := s.(registry := Prune(s.registry, s.jobs, s.now));
    match AdmissionFor(s, key)
    case Accepted(id) =>
      pruned.(registry := pruned.registry[key := id], jobs := s.jobs + [Job(key, false, true, 0)],
              workers := s.workers + [Launched(launch)])
    case _ => pruned
  }

  datatype CancelAnswer = Cancelling | Cancelled | RegistryFull

  function CancelAnswerFor(s: State, key: Key): CancelAnswer
    requires Registered(s.registry, s.jobs)
  {
    var registry := Prune(s.registry, s.jobs, s.now);
    if key !in registry then if |registry.Keys| >= MAX_REQUESTS then RegistryFull else Cancelled
    else if s.jobs[registry[key]].active then Cancelling
    else Cancelled
  }

  /** The entry is marked, or one is made for a key not yet submitted, so that it never will be. */
  function Cancel(s: State, key: Key): State
    requires Registered(s.registry, s.jobs)
  {
    if key in s.registry then
      var id := s.registry[key];
      s.(jobs := s.jobs[id := s.jobs[id].(cancelled := true)])
    else if |s.registry.Keys| >= MAX_REQUESTS then s
    else
      s.(registry := s.registry[key := |s.jobs|],
         jobs := s.jobs + [Job(key, true, false, s.now + REQUEST_TTL_SECONDS)],
         workers := s.workers + [Worker(NeverRan, false)])
  }

  function Pruned(s: State): State
    requires Registered(s.registry, s.jobs)
  {
    s.(registry := Prune(s.registry, s.jobs, s.now))
  }

  function AfterCancel(s: State, key: Key): State
    requires Registered(s.registry, s.jobs)
  {
    Cancel(Pruned(s), key)
  }

  function AfterRelease(s: State, id: nat): State
    requires id < |s.jobs| && id < |s.workers|
  {
    s.(jobs := s.jobs[id := s.jobs[id].(active := false, expires := s.now + REQUEST_TTL_SECONDS)],
       workers := s.workers[id := s.workers[id].(phase := Released)])
  }

  // ---------- steps ----------

  datatype Step =
    | Tick(seconds: nat)
    | Maintain
    | Admit(key: Key, launch: Launch)
    | RequestCancel(key: Key)
    | Happens(id: nat, event: Event)
    | Release(id: nat)

  /** What befalls one worker once it was launched. */
  datatype Event = Die | Leave | Observe | GiveUp

  /**
   Cleanup kills and then observes; a process still alive is handed to a background owner, who
   observes again until it is gone. Cleanup itself gives up on an exception, be it from the pipe,
   from killing, from starting that owner or from closing the process; the owner catches them.
   */
  function WorkerAfter(w: Worker, event: Event): Worker {
    match event
    case Die => w.(alive := false)
    case Leave => if w.phase.Running? then w.(phase := Cleaning(true)) else w
    case Observe =>
      if w.phase !in {Cleaning(true), Reaping} then w
      else w.(phase := if w.alive then Reaping else Confirmed(w.phase.Reaping?))
    case GiveUp => if InCleanup(w) then w.(phase := Abandoned) else w
  }

  predicate InCleanup(w: Worker) { w.phase.Cleaning? || w.phase == Confirmed(false) }

  predicate Releasable(w: Worker) { w.phase == Cleaning(false) || w.phase.Confirmed? }

  /** Only a confirmed death, or a start that failed, is released. */
  function Next(s: State, step: Step): State
    requires Registered(s.registry, s.jobs) && |s.workers| == |s.jobs|
  {
    match step
    case Tick(seconds) => s.(now := s.now + seconds)
    case Maintain => s.(registry := Prune(s.registry, s.jobs, s.now))
    case Admit(key, launch) => AfterAdmission(s, key, launch)
    case RequestCancel(key) => AfterCancel(s, key)
    case Happens(id, event) =>
      if id >= |s.workers| then s else s.(workers := s.workers[id := WorkerAfter(s.workers[id], event)])
    case Release(id) =>
      if id >= |s.workers| || !Releasable(s.workers[id]) then s else AfterRelease(s, id)
  }

  function ActiveIds(jobs: seq<Job>): set<nat> { set id: nat | id < |jobs| && jobs[id].active }

  function LiveIds(workers: seq<Worker>): set<nat> { set id: nat | id < |workers| && workers[id].alive }

  /** An active job owns its key's entry, and only a job not yet released can have a process. */
  predicate JobLinked(registry: map<Key, nat>, id: nat, job: Job, worker: Worker) {
    && (job.active ==> job.key in registry && registry[job.key] == id)
    && (job.active <==> worker.phase !in {Released, NeverRan})
    && (worker.alive ==> worker.phase in {Running, Cleaning(true), Reaping, Abandoned})
  }

  predicate Linked(s: State) {
    && Registered(s.registry, s.jobs) && |s.workers| == |s.jobs|
    && forall id :: 0 <= id < |s.jobs| ==> JobLinked(s.registry, id, s.jobs[id], s.workers[id])
  }

  predicate Bounded(s: State) {
    |s.registry.Keys| <= MAX_REQUESTS && |ActiveIds(s.jobs)| <= MAX_PROCESSES
  }

  predicate Valid(s: State) { Linked(s) && Bounded(s) }

  // ---------- proofs ----------

  /** Distinct active jobs hold distinct keys, so counting entries bounds the jobs. */
  lemma {:induction false} JobsByKeys(ids: set<nat>, registry: map<Key, nat>, jobs: seq<Job>, keys: set<Key>)
    requires forall id :: id in ids ==>
      id < |jobs| && jobs[id].key in registry && registry[jobs[id].key] == id && jobs[id].key in keys
    ensures |ids| <= |keys|
    decreases |ids|
  {
    if ids != {} {
      var id :| id in ids;
      JobsByKeys(ids - {id}, registry, jobs, keys - {jobs[id].key});
    }
  }

  lemma ActiveIdsAfterNew(jobs: seq<Job>, job: Job)
    ensures |ActiveIds(jobs + [job])| == |ActiveIds(jobs)| + if job.active then 1 else 0
  {
    var more := jobs + [job];
    var before, after := ActiveIds(jobs), ActiveIds(more);
    assert forall id :: 0 <= id < |jobs| ==> more[id] == jobs[id];
    if job.active {
      assert after == before + {|jobs|};
    } else {
      assert after == before;
    }
  }

  lemma ActiveIdsAfterUpdate(jobs: seq<Job>, id: nat, job: Job)
    requires id < |jobs| && (job.active ==> jobs[id].active)
    ensures |ActiveIds(jobs[id := job])| <= |ActiveIds(jobs)|
  {
    SubsetSize(ActiveIds(jobs[id := job]), ActiveIds(jobs));
  }

  lemma ActiveIdsAfterRelease(jobs: seq<Job>, id: nat, job: Job)
    requires id < |jobs| && jobs[id].active && !job.active
    ensures |ActiveIds(jobs[id := job])| == |ActiveIds(jobs)| - 1
  {
    assert ActiveIds(jobs[id := job]) == ActiveIds(jobs) - {id};
  }

  /** Pruning drops finished entries only. */
  lemma PruneKeeps(s: State)
    requires Valid(s)
    ensures Valid(s.(registry := Prune(s.registry, s.jobs, s.now)))
    ensures |ActiveIds(s.jobs)| <= |ActiveKeys(Prune(s.registry, s.jobs, s.now), s.jobs)|
  {
    var registry := Prune(s.registry, s.jobs, s.now);
    assert registry.Keys <= s.registry.Keys;
    SubsetSize(registry.Keys, s.registry.Keys);
    JobsByKeys(ActiveIds(s.jobs), registry, s.jobs, ActiveKeys(registry, s.jobs));
  }

  /** A new job for a free key. */
  lemma NewJobKeepsLinked(s: State, key: Key, job: Job, worker: Worker)
    requires Linked(s) && key !in s.registry && job.key == key && (worker.alive ==> worker.phase == Running)
    requires job.active <==> worker.phase !in {Released, NeverRan}
    ensures Linked(s.(registry := s.registry[key := |s.jobs|], jobs := s.jobs + [job], workers := s.workers + [worker]))
  {
  }

  lemma NewJobKeepsBounded(s: State, key: Key, job: Job)
    requires Bounded(s) && |s.registry.Keys| < MAX_REQUESTS && (job.active ==> |ActiveIds(s.jobs)| < MAX_PROCESSES)
    ensures Bounded(s.(registry := s.registry[key := |s.jobs|], jobs := s.jobs + [job]))
  {
    assert s.registry[key := |s.jobs|].Keys == s.registry.Keys + {key};
    ActiveIdsAfterNew(s.jobs, job);
  }

  lemma NewJobKeepsValid(s: State, key: Key, job: Job, worker: Worker)
    requires Valid(s) && key !in s.registry && job.key == key && (worker.alive ==> worker.phase == Running)
    requires job.active <==> worker.phase !in {Released, NeverRan}
    requires job.active ==> |ActiveIds(s.jobs)| < MAX_PROCESSES
    requires |s.registry.Keys| < MAX_REQUESTS
    ensures Valid(s.(registry := s.registry[key := |s.jobs|], jobs := s.jobs + [job], workers := s.workers + [worker]))
  {
    NewJobKeepsLinked(s, key, job, worker);
    NewJobKeepsBounded(s, key, job);
  }

  lemma AdmissionKeepsValid(s: State, key: Key, launch: Launch)
    requires Valid(s)
    ensures Valid(AfterAdmission(s, key, launch))
  {
    PruneKeeps(s);
    if AdmissionFor(s, key).Accepted? {
      var pruned := s.(registry := Prune(s.registry, s.jobs, s.now));
      NewJobKeepsValid(pruned, key, Job(key, false, true, 0), Launched(launch));
    }
  }

  /** Changing one job and its worker in place, with the job's key unchanged. */
  lemma ChangedJobKeepsValid(s: State, id: nat, job: Job, worker: Worker)
    requires Valid(s) && id < |s.jobs| && job.key == s.jobs[id].key && (job.active ==> s.jobs[id].active)
    requires JobLinked(s.registry, id, job, worker)
    ensures Valid(s.(jobs := s.jobs[id := job], workers := s.workers[id := worker]))
  {
    ActiveIdsAfterUpdate(s.jobs, id, job);
  }

  lemma CancelKeepsValid(s: State, key: Key)
    requires Valid(s)
    ensures Valid(Cancel(s, key))
  {
    if key in s.registry {
      MarkKeepsValid(s, s.registry[key]);
    } else if |s.registry.Keys| < MAX_REQUESTS {
      var job, worker := Job(key, true, false, s.now + REQUEST_TTL_SECONDS), Worker(NeverRan, false);
      NewJobKeepsValid(s, key, job, worker);
      assert Cancel(s, key) ==
        s.(registry := s.registry[key := |s.jobs|], jobs := s.jobs + [job], workers := s.workers + [worker]);
    }
  }

  /** Marking a job cancelled touches neither its slot nor its process. */
  lemma MarkKeepsValid(s: State, id: nat)
    requires Valid(s) && id < |s.jobs|
    ensures Valid(s.(jobs := s.jobs[id := s.jobs[id].(cancelled := true)]))
  {
    assert JobLinked(s.registry, id, s.jobs[id], s.workers[id]);
    ChangedJobKeepsValid(s, id, s.jobs[id].(cancelled := true), s.workers[id]);
    assert s.workers[id := s.workers[id]] == s.workers;
  }

  lemma EventKeepsValid(s: State, id: nat, event: Event)
    requires Valid(s)
    ensures Valid(Next(s, Happens(id, event)))
  {
    if id < |s.workers| {
      assert JobLinked(s.registry, id, s.jobs[id], s.workers[id]);
      ChangedJobKeepsValid(s, id, s.jobs[id], WorkerAfter(s.workers[id], event));
      assert s.jobs[id := s.jobs[id]] == s.jobs;
    }
  }

  lemma ReleaseKeepsValid(s: State, id: nat)
    requires Valid(s)
    ensures Valid(Next(s, Release(id)))
  {
    if id < |s.workers| && Releasable(s.workers[id]) {
      var after := AfterRelease(s, id);
      assert JobLinked(s.registry, id, s.jobs[id], s.workers[id]);
      ChangedJobKeepsValid(s, id, after.jobs[id], after.workers[id]);
    }
  }

  lemma StepKeepsValid(s: State, step: Step)
    requires Valid(s)
    ensures Valid(Next(s, step))
  {
    match step
    case Tick(_) =>
    case Maintain => PruneKeeps(s);
    case Admit(key, launch) => AdmissionKeepsValid(s, key, launch);
    case RequestCancel(key) =>
      PruneKeeps(s);
      CancelKeepsValid(Pruned(s), key);
    case Happens(id, event) => EventKeepsValid(s, id, event);
    case Release(id) => ReleaseKeepsValid(s, id);
  }

  ghost predicate Follows(a: State, step: Step, b: State) { Valid(a) ==> b == Next(a, step) }

  ghost predicate Trace(states: seq<State>, steps: seq<Step>) {
    && |states| == |steps| + 1
    && forall i :: 0 <= i < |steps| ==> Follows(states[i], steps[i], states[i + 1])
  }

  predicate Initial(s: State) { s.registry == map[] && s.jobs == [] && s.workers == [] }

  /** No interleaving exceeds the bounds: at most two live processes and 256 registry entries. */
  lemma {:induction false} BoundsAlwaysHold(states: seq<State>, steps: seq<Step>, n: nat)
    requires Trace(states, steps) && n <= |steps| && Initial(states[0])
    ensures Valid(states[n])
    ensures |LiveIds(states[n].workers)| <= MAX_PROCESSES && |states[n].registry.Keys| <= MAX_REQUESTS
    decreases n
  {
    if n == 0 {
      assert ActiveIds(states[0].jobs) == {};
    } else {
      BoundsAlwaysHold(states, steps, n - 1);
      assert Follows(states[n - 1], steps[n - 1], states[n]);
      StepKeepsValid(states[n - 1], steps[n - 1]);
    }
    assert LiveIds(states[n].workers) <= ActiveIds(states[n].jobs);
    SubsetSize(LiveIds(states[n].workers), ActiveIds(states[n].jobs));
  }

  /** A slot is given back in one way only: its process was confirmed dead, or never started. */
  lemma SlotFreedOnlyAfterDeath(s: State, step: Step, id: nat)
    requires Valid(s) && id < |s.jobs| && s.jobs[id].active && !Next(s, step).jobs[id].active
    ensures !s.workers[id].alive && Releasable(s.workers[id]) && step == Release(id)
  {
  }

  /** An active job keeps its registry entry through every step that leaves it active. */
  lemma ActiveEntryStays(s: State, step: Step, key: Key)
    requires Valid(s) && key in s.registry && s.jobs[s.registry[key]].active
    ensures key in Next(s, step).registry && Next(s, step).registry[key] == s.registry[key]
  {
    assert key in Prune(s.registry, s.jobs, s.now);
  }

  lemma ReleasedStaysDeadOneStep(s: State, step: Step, id: nat)
    requires Valid(s) && id < |s.jobs| && !s.jobs[id].active
    ensures id < |Next(s, step).jobs| && !Next(s, step).jobs[id].active
  {
    assert JobLinked(s.registry, id, s.jobs[id], s.workers[id]);
  }

  /** Once released, a job stays released and its process stays dead. */
  lemma {:induction false} ReleasedStaysDead(states: seq<State>, steps: seq<Step>, m: nat, n: nat, id: nat)
    requires Trace(states, steps) && m <= n <= |steps| && Valid(states[m])
    requires id < |states[m].jobs| && !states[m].jobs[id].active
    ensures Valid(states[n]) && id < |states[n].jobs| && !states[n].jobs[id].active && !states[n].workers[id].alive
    decreases n
  {
    if m < n {
      ReleasedStaysDead(states, steps, m, n - 1, id);
      assert Follows(states[n - 1], steps[n - 1], states[n]);
      StepKeepsValid(states[n - 1], steps[n - 1]);
      ReleasedStaysDeadOneStep(states[n - 1], steps[n - 1], id);
    }
    assert JobLinked(states[n].registry, id, states[n].jobs[id], states[n].workers[id]);
  }

  // ---------- slots ----------

  /** The state after some steps, whatever they are. */
  ghost function After(s: State, steps: seq<Step>): (r: State)
    requires Valid(s)
    ensures Valid(r)
  {
    if steps == [] then s
    else
      var before := After(s, steps[..|steps| - 1]);
      StepKeepsValid(before, steps[|steps| - 1]);
      Next(before, steps[|steps| - 1])
  }

  lemma AfterOneMore(s: State, steps: seq<Step>, step: Step)
    requires Valid(s)
    ensures After(s, steps + [step]) == Next(After(s, steps), step)
  {
    assert (steps + [step])[..|steps|] == steps;
  }

  predicate HoldsSlot(s: State, id: nat) { id < |s.jobs| && s.jobs[id].active }

  predicate Lost(s: State, id: nat) { HoldsSlot(s, id) && id < |s.workers| && s.workers[id].phase == Abandoned }

  lemma LostStaysLostOneStep(s: State, step: Step, id: nat)
    requires Valid(s) && Lost(s, id)
    ensures Lost(Next(s, step), id)
  {
  }

  lemma {:induction false} LostStaysLost(s: State, steps: seq<Step>, id: nat)
    requires Valid(s) && Lost(s, id)
    ensures Lost(After(s, steps), id)
    decreases |steps|
  {
    if steps != [] {
      LostStaysLost(s, steps[..|steps| - 1], id);
      LostStaysLostOneStep(After(s, steps[..|steps| - 1]), steps[|steps| - 1], id);
    }
  }

  /** What the four freeing steps leave of one worker. */
  lemma FreedWorker(s: State, id: nat)
    requires Valid(s) && HoldsSlot(s, id) && !Lost(s, id)
    ensures var w := WorkerAfter(WorkerAfter(WorkerAfter(s.workers[id], Leave), Die), Observe);
      Releasable(w)
  {
    assert JobLinked(s.registry, id, s.jobs[id], s.workers[id]);
  }

  /** Everything but one worker stands as it did. */
  predicate SameButWorker(s: State, t: State, id: nat) {
    t.now == s.now && t.registry == s.registry && t.jobs == s.jobs && |t.workers| == |s.workers| && id < |t.workers|
  }

  lemma OneEvent(s: State, steps: seq<Step>, id: nat, event: Event) returns (more: seq<Step>)
    requires Valid(s) && SameButWorker(s, After(s, steps), id)
    ensures var after := After(s, more);
      SameButWorker(s, after, id) && after.workers[id] == WorkerAfter(After(s, steps).workers[id], event)
  {
    more := steps + [Happens(id, event)];
    AfterOneMore(s, steps, Happens(id, event));
  }

  lemma ReleaseIsDue(t: State, id: nat)
    requires Linked(t) && id < |t.workers| && Releasable(t.workers[id])
    ensures Next(t, Release(id)) == AfterRelease(t, id)
  {
  }

  lemma ReleaseFrees(s: State, steps: seq<Step>, id: nat) returns (more: seq<Step>)
    requires Valid(s) && SameButWorker(s, After(s, steps), id) && id < |s.jobs|
    requires Releasable(After(s, steps).workers[id])
    ensures var after := After(s, more);
      && after.now == s.now && after.registry == s.registry
      && after.jobs == s.jobs[id := s.jobs[id].(active := false, expires := s.now + REQUEST_TTL_SECONDS)]
  {
    more := steps + [Release(id)];
    AfterOneMore(s, steps, Release(id));
    ReleaseIsDue(After(s, steps), id);
  }

  /** Leave the loop, die, be seen dead, be released: whatever of it is still due. */
  lemma FreeingFrees(s: State, id: nat) returns (steps: seq<Step>)
    requires Valid(s) && HoldsSlot(s, id) && !Lost(s, id)
    ensures var after := After(s, steps);
      && after.now == s.now && after.registry == s.registry
      && after.jobs == s.jobs[id := s.jobs[id].(active := false, expires := s.now + REQUEST_TTL_SECONDS)]
  {
    FreedWorker(s, id);
    var left := OneEvent(s, [], id, Leave);
    var dead := OneEvent(s, left, id, Die);
    var seen := OneEvent(s, dead, id, Observe);
    steps := ReleaseFrees(s, seen, id);
  }

  /**
   A slot is lost by two steps only: an admission whose pipe or process cannot be made, and a
   cleanup that gives up before it released the job or handed it over.
   */
  lemma LostExactly(s: State, step: Step, id: nat)
    requires Valid(s)
    ensures Lost(Next(s, step), id) && !Lost(s, id) <==>
              || (step == Happens(id, GiveUp) && id < |s.workers| && InCleanup(s.workers[id]))
              || (step.Admit? && step.launch == NeverTried && AdmissionFor(s, step.key) == Accepted(id))
  {
    if id < |s.jobs| { assert JobLinked(s.registry, id, s.jobs[id], s.workers[id]); }
  }

  /** The background owner has the worker, or has released it. */
  predicate HandedOver(s: State, id: nat) {
    id < |s.workers| && s.workers[id].phase in {Reaping, Confirmed(true), Released}
  }

  lemma HandedOverOneStep(s: State, step: Step, id: nat)
    requires Valid(s) && HandedOver(s, id)
    ensures HandedOver(Next(s, step), id)
  {
  }

  /** What was handed over is never lost, whatever happens. */
  lemma {:induction false} HandedOverIsNeverLost(s: State, steps: seq<Step>, id: nat)
    requires Valid(s) && HandedOver(s, id)
    ensures HandedOver(After(s, steps), id) && !Lost(After(s, steps), id)
    decreases |steps|
  {
    if steps != [] {
      HandedOverIsNeverLost(s, steps[..|steps| - 1], id);
      HandedOverOneStep(After(s, steps[..|steps| - 1]), steps[|steps| - 1], id);
    }
  }

  /**
   An occupied slot can be given back exactly when its job was not abandoned: every other one is
   freed once its process is gone, an abandoned one never, even when its process dies.
   */
  lemma SlotComesBackExactly(s: State, id: nat)
    requires Valid(s) && HoldsSlot(s, id)
    ensures (exists steps :: !HoldsSlot(After(s, steps), id)) <==> !Lost(s, id)
  {
    if Lost(s, id) {
      forall steps ensures HoldsSlot(After(s, steps), id) { LostStaysLost(s, steps, id); }
    } else {
      var steps := FreeingFrees(s, id);
      assert !HoldsSlot(After(s, steps), id);
    }
  }

  // ---------- cancellation ----------

  /** The key stays occupied until then, whatever happens. */
  predicate Barred(s: State, key: Key, until: int) {
    && key in s.registry && s.registry[key] < |s.jobs|
    && until <= s.now + REQUEST_TTL_SECONDS
    && (s.jobs[s.registry[key]].active || s.jobs[s.registry[key]].expires >= until)
  }

  /** What a caller of cancel could look up: the entry is new, running, or finished with its full time left. */
  predicate CancelHolds(s: State, key: Key)
    requires Registered(s.registry, s.jobs)
  {
    var registry := Prune(s.registry, s.jobs, s.now);
    if key in registry
    then s.jobs[registry[key]].active || s.jobs[registry[key]].expires >= s.now + REQUEST_TTL_SECONDS
    else |registry.Keys| < MAX_REQUESTS
  }

  /**
   Cancelling bars the key for the whole time to live exactly when the registry had room or an
   entry, and that entry was not already finished with less than that left.
   */
  lemma CancelBars(s: State, key: Key)
    requires Valid(s)
    ensures Barred(AfterCancel(s, key), key, s.now + REQUEST_TTL_SECONDS) <==> CancelHolds(s, key)
    ensures AfterCancel(s, key).now == s.now
  {
  }

  /** A worker of the key comes to life in this step. */
  predicate Starts(a: State, b: State, key: Key) {
    exists id :: 0 <= id < |b.workers| && id < |b.jobs| && b.workers[id].alive && b.jobs[id].key == key
      && !(id < |a.workers| && a.workers[id].alive)
  }

  /** Only an accepted admission starts a worker, and only one of its own key. */
  lemma OnlyAdmissionStarts(s: State, step: Step, key: Key)
    requires Valid(s)
    ensures Starts(s, Next(s, step), key) <==>
              step == Admit(key, Started) && AdmissionFor(s, key).Accepted?
  {
    var after := Next(s, step);
    if step.Admit? && AdmissionFor(s, step.key).Accepted? {
      assert after.jobs[|s.jobs|].key == step.key;
      assert step.launch == Started ==> after.workers[|s.workers|].alive;
    }
  }

  lemma BarredStaysBarred(s: State, step: Step, key: Key, until: int)
    requires Valid(s) && Barred(s, key, until) && s.now < until
    ensures Barred(Next(s, step), key, until) && Next(s, step).registry[key] == s.registry[key]
    ensures AdmissionFor(s, key) == Conflict
  {
    assert key in Prune(s.registry, s.jobs, s.now);
  }

  lemma TimeOnlyGrows(s: State, step: Step)
    requires Valid(s)
    ensures s.now <= Next(s, step).now
  {
  }

  /** A barred key stays barred, on the same entry, as long as time allows. */
  lemma {:induction false} BarredWhileTimeAllows(s: State, steps: seq<Step>, key: Key, until: int)
    requires Valid(s) && Barred(s, key, until) && After(s, steps).now < until
    ensures Barred(After(s, steps), key, until) && After(s, steps).registry[key] == s.registry[key]
    decreases |steps|
  {
    if steps != [] {
      var before, last := After(s, steps[..|steps| - 1]), steps[|steps| - 1];
      TimeOnlyGrows(before, last);
      BarredWhileTimeAllows(s, steps[..|steps| - 1], key, until);
      BarredStaysBarred(before, last, key, until);
    }
  }

  /**
   A cancellation that holds: however the run goes on, no worker of the key comes to life before
   the time to live is over, whether the key was submitted before or not.
   */
  lemma CancelledKeyStartsNothing(s: State, key: Key, steps: seq<Step>, step: Step)
    requires Valid(s) && CancelHolds(s, key)
    requires Valid(AfterCancel(s, key))
    requires After(AfterCancel(s, key), steps).now < s.now + REQUEST_TTL_SECONDS
    ensures var before := After(AfterCancel(s, key), steps);
      !Starts(before, Next(before, step), key)
  {
    var until := s.now + REQUEST_TTL_SECONDS;
    CancelBars(s, key);
    BarredWhileTimeAllows(AfterCancel(s, key), steps, key, until);
    var before := After(AfterCancel(s, key), steps);
    BarredStaysBarred(before, step, key, until);
    OnlyAdmissionStarts(before, step, key);
  }

  /** What a cancellation answers, and that it marks the entry it found or made. */
  lemma CancelAnswersExactly(s: State, key: Key)
    requires Valid(s)
    ensures var kept, after := Prune(s.registry, s.jobs, s.now), AfterCancel(s, key);
      && (CancelAnswerFor(s, key) == Cancelling <==> key in s.registry && s.jobs[s.registry[key]].active)
      && (CancelAnswerFor(s, key) == RegistryFull <==> key !in kept && |kept.Keys| >= MAX_REQUESTS)
      && (CancelAnswerFor(s, key) != RegistryFull <==>
            key in after.registry && after.registry[key] < |after.jobs| && after.jobs[after.registry[key]].cancelled)
  {
  }

  predicate Marked(s: State, id: nat) { id < |s.jobs| && s.jobs[id].cancelled }

  lemma MarkedOneStep(s: State, step: Step, id: nat)
    requires Valid(s) && Marked(s, id)
    ensures Marked(Next(s, step), id)
  {
  }

  /** A mark is never taken back, whatever happens. */
  lemma {:induction false} MarkedStaysMarked(s: State, steps: seq<Step>, id: nat)
    requires Valid(s) && Marked(s, id)
    ensures Marked(After(s, steps), id)
    decreases |steps|
  {
    if steps != [] {
      MarkedStaysMarked(s, steps[..|steps| - 1], id);
      MarkedOneStep(After(s, steps[..|steps| - 1]), steps[|steps| - 1], id);
    }
  }

  /** An admission is accepted exactly for a key not held, with an entry and a worker slot left. */
  lemma AdmissionExactly(s: State, key: Key)
    requires Valid(s)
    ensures var kept := Prune(s.registry, s.jobs, s.now);
      && (AdmissionFor(s, key) == Conflict <==> key in kept)
      && (AdmissionFor(s, key).Accepted? <==>
            key !in kept && |kept.Keys| < MAX_REQUESTS && |ActiveIds(s.jobs)| < MAX_PROCESSES)
  {
    var kept := Prune(s.registry, s.jobs, s.now);
    PruneKeeps(s);
    KeysByJobs(ActiveKeys(kept, s.jobs), kept, s.jobs, ActiveIds(s.jobs));
  }

  // ---------- when a cancellation lapses ----------

  /** A slot is free or can become free. */
  predicate SlotAvailable(s: State) {
    |ActiveIds(s.jobs)| < MAX_PROCESSES || exists id :: id in ActiveIds(s.jobs) && !Lost(s, id)
  }

  /** Each active entry belongs to a job of its own. */
  lemma {:induction false} KeysByJobs(keys: set<Key>, registry: map<Key, nat>, jobs: seq<Job>, ids: set<nat>)
    requires forall k :: k in keys ==>
      k in registry && registry[k] < |jobs| && jobs[registry[k]].key == k && registry[k] in ids
    ensures |keys| <= |ids|
    decreases |keys|
  {
    if keys != {} {
      var k :| k in keys;
      KeysByJobs(keys - {k}, registry, jobs, ids - {registry[k]});
    }
  }

  /** With a free slot and its entry expired, the key is admitted again. */
  lemma ExpiredKeyIsAdmitted(s: State, key: Key)
    requires Valid(s) && key in s.registry && !Kept(s.jobs[s.registry[key]], s.now)
    requires |ActiveIds(s.jobs)| < MAX_PROCESSES
    ensures AdmissionFor(s, key).Accepted?
  {
    var registry := Prune(s.registry, s.jobs, s.now);
    assert registry.Keys <= s.registry.Keys - {key};
    SubsetSize(registry.Keys, s.registry.Keys - {key});
    KeysByJobs(ActiveKeys(registry, s.jobs), registry, s.jobs, ActiveIds(s.jobs));
  }

  /** The steps that give one slot back, if it takes any. */
  lemma OneSlotFree(s: State) returns (steps: seq<Step>)
    requires Valid(s) && SlotAvailable(s)
    ensures var after := After(s, steps);
      && |ActiveIds(after.jobs)| < MAX_PROCESSES && after.now == s.now && after.registry == s.registry
      && |after.jobs| == |s.jobs|
      && forall id :: 0 <= id < |s.jobs| && !s.jobs[id].active ==> after.jobs[id] == s.jobs[id]
  {
    steps := [];
    if |ActiveIds(s.jobs)| >= MAX_PROCESSES {
      var id :| id in ActiveIds(s.jobs) && !Lost(s, id);
      steps := FreeingFrees(s, id);
      ActiveIdsAfterRelease(s.jobs, id, After(s, steps).jobs[id]);
    }
  }

  /** Within the time to live, some run starts a worker of the key. */
  ghost predicate Lapses(s: State, key: Key, until: int)
    requires Valid(s)
  {
    exists steps, step :: After(s, steps).now < until && Starts(After(s, steps), Next(After(s, steps), step), key)
  }

  /** Waiting for a finished entry to expire and submitting the key again does it. */
  lemma FinishedEntryLapses(s: State, key: Key, until: int)
    requires Valid(s) && SlotAvailable(s) && key in s.registry
    requires var job := s.jobs[s.registry[key]]; !job.active && s.now < job.expires < until
    ensures Lapses(s, key, until)
  {
    var job := s.jobs[s.registry[key]];
    var freed := OneSlotFree(s);
    var wait := freed + [Tick(job.expires - s.now)];
    AfterOneMore(s, freed, Tick(job.expires - s.now));
    ExpiredKeyIsAdmitted(After(s, wait), key);
    OnlyAdmissionStarts(After(s, wait), Admit(key, Started), key);
  }

  /** Every slot is held by an abandoned job. */
  predicate Starved(s: State) {
    |ActiveIds(s.jobs)| >= MAX_PROCESSES && forall id :: id in ActiveIds(s.jobs) ==> Lost(s, id)
  }

  lemma StarvedStaysStarved(s: State, step: Step)
    requires Valid(s) && Starved(s)
    ensures Starved(Next(s, step))
    ensures forall key :: !AdmissionFor(s, key).Accepted?
  {
    PruneKeeps(s);
    var after := Next(s, step);
    forall key ensures !AdmissionFor(s, key).Accepted? { }
    forall id | id in ActiveIds(s.jobs) ensures id in ActiveIds(after.jobs) && Lost(after, id) {
      LostStaysLostOneStep(s, step, id);
    }
    assert ActiveIds(after.jobs) == ActiveIds(s.jobs);
  }

  lemma {:induction false} StarvedForever(s: State, steps: seq<Step>)
    requires Valid(s) && Starved(s)
    ensures Starved(After(s, steps))
    decreases |steps|
  {
    if steps != [] {
      StarvedForever(s, steps[..|steps| - 1]);
      StarvedStaysStarved(After(s, steps[..|steps| - 1]), steps[|steps| - 1]);
    }
  }

  /** Marking or making an entry takes no slot and gives none back. */
  lemma CancelKeepsSlots(s: State, key: Key)
    requires Valid(s)
    ensures Valid(AfterCancel(s, key))
    ensures SlotAvailable(AfterCancel(s, key)) <==> SlotAvailable(s)
  {
    PruneKeeps(s);
    CancelKeepsValid(Pruned(s), key);
    var after := AfterCancel(s, key);
    CancelKeepsActive(Pruned(s), key);
    assert forall id :: id in ActiveIds(s.jobs) ==> (Lost(after, id) <==> Lost(s, id));
  }

  lemma CancelKeepsActive(s: State, key: Key)
    requires Valid(s)
    ensures ActiveIds(Cancel(s, key).jobs) == ActiveIds(s.jobs)
    ensures forall id :: 0 <= id < |s.workers| ==>
        id < |Cancel(s, key).workers| && Cancel(s, key).workers[id] == s.workers[id]
  {
    var after := Cancel(s, key);
    assert forall id :: 0 <= id < |s.jobs| ==> after.jobs[id].active == s.jobs[id].active;
    assert forall id :: |s.jobs| <= id < |after.jobs| ==> !after.jobs[id].active;
  }

  /**
   When an accepted cancellation fails to keep its key from running within the time to live:
   exactly when the entry had already finished with less than that left, and a slot is free or
   can become free.
   */
  lemma CancellationLapsesExactly(s: State, key: Key)
    requires Valid(s) && CancelAnswerFor(s, key) != RegistryFull
    ensures Valid(AfterCancel(s, key))
    ensures Lapses(AfterCancel(s, key), key, s.now + REQUEST_TTL_SECONDS) <==> !CancelHolds(s, key) && SlotAvailable(s)
  {
    CancelKeepsSlots(s, key);
    var after, until := AfterCancel(s, key), s.now + REQUEST_TTL_SECONDS;
    if CancelHolds(s, key) {
      forall steps, step | After(after, steps).now < until
        ensures !Starts(After(after, steps), Next(After(after, steps), step), key)
      {
        CancelledKeyStartsNothing(s, key, steps, step);
      }
    } else if SlotAvailable(s) {
      FinishedEntryLapses(after, key, until);
    } else {
      forall steps, step ensures !Starts(After(after, steps), Next(After(after, steps), step), key) {
        StarvedForever(after, steps);
        StarvedStaysStarved(After(after, steps), step);
        OnlyAdmissionStarts(After(after, steps), step, key);
      }
    }
  }

  // ---------- the module's own functions, each locked section as it is written ----------

  /** What may raise in a cleanup: closing the pipe, killing, starting the owner, closing the process. */
  datatype Fault = NoFault | PipeFails | KillFails | OwnerFails | CloseFails

  datatype CleanupAnswer = Freed | Unconfirmed | Raised

  /** Whether the cleanup of that worker comes to the call that raises. */
  predicate Strikes(fault: Fault, w: Worker)
    requires w.phase.Cleaning?
  {
    match fault
    case NoFault => false
    case PipeFails => true
    case KillFails => w.phase.started
    case OwnerFails => w.phase.started && w.alive
    case CloseFails => w.phase.started && !w.alive
  }

  class AnalysisJobs {
    var now: int
    var registry: map<Key, nat>
    var jobs: seq<Job>
    var workers: seq<Worker>

    ghost function Abstract(): State reads this { State(now, registry, jobs, workers) }

    constructor (now: int)
      ensures Initial(Abstract()) && Valid(Abstract())
    {
      this.now := now;
      registry := map[];
      jobs := [];
      workers := [];
      new;
      assert ActiveIds(jobs) == {};
    }

    method PruneRegistry()
      requires Registered(registry, jobs)
      modifies this`registry
      ensures registry == Prune(old(registry), jobs, now)
    {
      ghost var start := registry;
      var rest := registry.Keys;
      while rest != {}
        invariant rest <= start.Keys && registry.Keys <= start.Keys
        invariant forall k :: k in registry ==> registry[k] == start[k]
        invariant forall k :: k in start ==> (k in registry <==> k in rest || Kept(jobs[start[k]], now))
        decreases |rest|
      {
        var key :| key in rest;
        rest := rest - {key};
        if !jobs[registry[key]].active && jobs[registry[key]].expires <= now {
          registry := registry - {key};
        }
      }
    }

    method CancelRequest(key: Key) returns (answer: CancelAnswer)
      requires Valid(Abstract())
      modifies this
      ensures Valid(Abstract()) && Abstract() == AfterCancel(old(Abstract()), key)
      ensures answer == CancelAnswerFor(old(Abstract()), key)
    {
      ghost var start := Abstract();
      PruneRegistry();
      PruneKeeps(start);
      CancelKeepsValid(Pruned(start), key);
      answer := MarkCancelled(key);
    }

    /** What cancellation does once the registry is pruned. */
    method MarkCancelled(key: Key) returns (answer: CancelAnswer)
      requires Registered(registry, jobs)
      modifies this
      ensures Abstract() == Cancel(old(Abstract()), key)
      ensures answer == if key in old(registry) then
                          if old(jobs)[old(registry)[key]].active then Cancelling else Cancelled
                        else if |old(registry).Keys| >= MAX_REQUESTS then RegistryFull else Cancelled
    {
      if key in registry {
        var id := registry[key];
        answer := if jobs[id].active then Cancelling else Cancelled;
        jobs := jobs[id := jobs[id].(cancelled := true)];
      } else if |registry.Keys| >= MAX_REQUESTS {
        answer := RegistryFull;
      } else {
        registry := registry[key := |jobs|];
        jobs := jobs + [Job(key, true, false, now + REQUEST_TTL_SECONDS)];
        workers := workers + [Worker(NeverRan, false)];
        answer := Cancelled;
      }
    }

    /** Counts the active entries one by one. */
    method BusyWorkers() returns (busy: nat)
      requires Registered(registry, jobs)
      ensures busy == |ActiveKeys(registry, jobs)|
    {
      busy := 0;
      var rest := registry.Keys;
      ghost var counted: set<Key> := {};
      while rest != {}
        invariant rest <= registry.Keys
        invariant counted == (set k | k in registry && k !in rest && jobs[registry[k]].active)
        invariant busy == |counted|
        decreases |rest|
      {
        var k :| k in rest;
        rest := rest - {k};
        if jobs[registry[k]].active {
          counted := counted + {k};
          busy := busy + 1;
        }
      }
      assert counted == ActiveKeys(registry, jobs);
    }

    /** The locked section of run and the launch that follows it without a break. */
    method AdmitRun(key: Key, launch: Launch) returns (admission: Admission)
      requires Valid(Abstract())
      modifies this
      ensures Valid(Abstract()) && Abstract() == AfterAdmission(old(Abstract()), key, launch)
      ensures admission == AdmissionFor(old(Abstract()), key)
    {
      AdmissionKeepsValid(Abstract(), key, launch);
      ghost var start := Abstract();
      PruneRegistry();
      if key in registry { return Conflict; }
      var busy := BusyWorkers();
      if |registry.Keys| >= MAX_REQUESTS || busy >= MAX_PROCESSES { return Busy; }
      admission := Accepted(|jobs|);
      registry := registry[key := |jobs|];
      jobs := jobs + [Job(key, false, true, 0)];
      workers := workers + [Launched(launch)];
      assert Abstract() == AfterAdmission(start, key, launch);
    }

    /**
     Cleanup of a run that left its loop: kill, observe, and release only what is certainly gone.
     An exception on the way leaves the job as active as it was, and without an owner.
     */
    method CleanupWorker(id: nat, fault: Fault) returns (answer: CleanupAnswer)
      requires Valid(Abstract()) && id < |jobs| && workers[id].phase.Cleaning?
      modifies this
      ensures Valid(Abstract())
      ensures answer == if Strikes(fault, old(workers)[id]) then Raised
                        else if old(workers)[id].alive then Unconfirmed else Freed
      ensures match answer
        case Raised => Abstract() == Next(old(Abstract()), Happens(id, GiveUp))
        case Unconfirmed => Abstract() == Next(old(Abstract()), Happens(id, Observe))
        case Freed => Abstract() == Next(Next(old(Abstract()), Happens(id, Observe)), Release(id))
    {
      var started, alive := workers[id].phase.started, workers[id].alive;
      if fault == PipeFails || (started && fault == KillFails) {
        Leave(id, GiveUp);
        return Raised;
      }
      if started && alive {
        Leave(id, if fault == OwnerFails then GiveUp else Observe);
        return if fault == OwnerFails then Raised else Unconfirmed;
      }
      if started && fault == CloseFails {
        Leave(id, GiveUp);
        return Raised;
      }
      CleanedIsReleased(Abstract(), id);
      EventKeepsValid(Abstract(), id, Observe);
      ReleaseKeepsValid(Next(Abstract(), Happens(id, Observe)), id);
      ReleaseJob(id);
      return Freed;
    }

    /** Where a cleanup leaves a worker it does not release. */
    method Leave(id: nat, event: Event)
      requires Valid(Abstract()) && id < |jobs|
      modifies this`workers
      ensures Valid(Abstract()) && Abstract() == Next(old(Abstract()), Happens(id, event))
    {
      EventKeepsValid(Abstract(), id, event);
      workers := workers[id := WorkerAfter(workers[id], event)];
    }

    method ReleaseJob(id: nat)
      requires Valid(Abstract()) && id < |jobs| && Valid(AfterRelease(Abstract(), id))
      modifies this`jobs, this`workers
      ensures Valid(Abstract()) && Abstract() == AfterRelease(old(Abstract()), id)
    {
      jobs := jobs[id := jobs[id].(active := false, expires := now + REQUEST_TTL_SECONDS)];
      workers := workers[id := workers[id].(phase := Released)];
    }
  }

  /** Seen dead or never started, and then released, is released. */
  lemma CleanedIsReleased(s: State, id: nat)
    requires Linked(s) && id < |s.workers| && s.workers[id].phase.Cleaning?
    requires s.workers[id].phase.started ==> !s.workers[id].alive
    ensures !s.workers[id].alive
    ensures Linked(Next(s, Happens(id, Observe)))
    ensures Next(Next(s, Happens(id, Observe)), Release(id)) == AfterRelease(s, id)
  {
    var w, seen := s.workers[id], Next(s, Happens(id, Observe));
    assert JobLinked(s.registry, id, s.jobs[id], w);
    assert seen == s.(workers := s.workers[id := WorkerAfter(w, Observe)]);
    assert Releasable(seen.workers[id]);
    assert AfterRelease(seen, id).workers == AfterRelease(s, id).workers;
  }
}
