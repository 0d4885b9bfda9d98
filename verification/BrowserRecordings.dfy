/**
 Consumption of browser recordings (crates/zk-db/src/browser_recordings.rs): a phase machine on
 the resource row, where leaving `sealed` needs durable evidence of the very same manifest.
 */
module BrowserRecordings {
  import opened Wrappers
  import opened Ascii

  const MAX_FILES: nat := 50
  const MAX_ARCHIVED_BYTES: nat := 20 * 1024 * 1024

  datatype Identity = Identity(session: string, run: string, invocation: Option<string>, batch: string)

  datatype File = File(
    path: string, kind: string, size: Option<nat>, status: string, sha256: Option<string>, errorCode: Option<string>)

  datatype Disposition = Disposition(
    path: string, kind: string, size: Option<nat>, status: string, blob: Option<string>, errorCode: Option<string>)

  datatype Dispositions = NotAnArray | Array(list: seq<Disposition>)

  datatype Manifest = Manifest(identity: Identity, digest: Option<string>, files: Option<seq<File>>)

  datatype Phase = Reserved | Sealed | AckEligible | Acknowledged

  datatype Recording = Recording(
    schema: int, phase: Phase, identity: Identity, manifest: Option<Manifest>, dispositions: Dispositions,
    notCreated: bool, receipt: Option<string>)

  /** A resource row; session is that of its run. */
  datatype Resource = Resource(
    version: int, released: bool, browserSession: bool, session: string, run: string, invocation: Option<string>,
    recording: Option<Recording>)

  datatype Outcome = Active | Succeeded | FailedOutcome | CancelledOutcome | InterruptedOutcome

  datatype Invocation = Invocation(run: string, verifyJourney: bool, outcome: Outcome)

  /** Who a recovery item speaks for; the hash of the manifest's text is opaque and injective. */
  datatype Source = Source(resource: string, identity: Identity, outcome: Outcome, manifest: Option<Manifest>)

  datatype Meta = Meta(source: Option<Source>, digest: Option<string>, dispositions: Dispositions)

  datatype Bundle = Bundle(
    session: string, kind: string, machine: bool, verdict: string, run: Option<string>, producer: Option<string>)

  datatype Item = Item(bundle: string, itemType: string, producer: Option<string>, meta: Meta)

  datatype ItemKey = ManifestItem(bundle: string) | DispositionItem(bundle: string, index: nat) | OtherItem(id: string)

  datatype World = World(
    resources: map<string, Resource>,
    invocations: map<string, Invocation>,
    completed: set<string>,
    persistent: set<string>,
    parents: map<string, Option<string>>,
    bundles: map<string, Bundle>,
    items: map<ItemKey, Item>)

  datatype Failure =
    | NoSuchRow | OwnerMismatch | ManifestInvalid | ManifestImmutable | ManifestLimit
    | AbsenceProofInvalid | RecoveryOwnerInvalid | DispositionsInvalid | RecoveryImmutable | RecoveryPhaseInvalid
    | StorageConflict | FinalizationPending

  // ---------- evidence ----------

  predicate HasDigest(d: Option<string>) { d.Some? && IsDigest(d.value) }

  predicate Aborted(o: Outcome) { o in {FailedOutcome, CancelledOutcome, InterruptedOutcome} }

  function RecoveryBundle(id: string): string { "recording-finalization:" + id }

  function RecoveryMeta(id: string, outcome: Outcome, rec: Recording): Meta {
    Meta(Some(Source(id, rec.identity, outcome, rec.manifest)),
         if rec.manifest.Some? then rec.manifest.value.digest else None, rec.dispositions)
  }

  /** The successful verifier's own evidence item. */
  predicate MachineItem(w: World, r: Resource, rec: Recording, key: ItemKey) {
    && key in w.items && w.items[key].bundle in w.bundles && r.invocation.Some? && rec.manifest.Some?
    && var item, b := w.items[key], w.bundles[w.items[key].bundle];
       && b.machine && b.producer == r.invocation && b.run == Some(r.run) && b.session == r.session
       && item.producer == r.invocation
       && item.meta.digest == rec.manifest.value.digest && item.meta.dispositions == rec.dispositions
  }

  predicate MachineProven(w: World, r: Resource, rec: Recording) {
    && r.invocation.Some? && r.invocation.value in w.completed
    && exists key :: key in w.items && MachineItem(w, r, rec, key)
  }

  /** The recovery evidence of an aborted verifier, still saying what the recording says. */
  predicate RecoveryProven(w: World, id: string, r: Resource, rec: Recording) {
    var bundle := RecoveryBundle(id);
    && rec.receipt == Some(bundle)
    && r.browserSession && r.invocation.Some? && r.invocation.value in w.invocations
    && bundle in w.bundles && ManifestItem(bundle) in w.items
    && var i, b, item := w.invocations[r.invocation.value], w.bundles[bundle], w.items[ManifestItem(bundle)];
       && i.run == r.run && i.verifyJourney && Aborted(i.outcome)
       && b == Bundle(r.session, "browser_recording_finalization", true, "inconclusive", None, None)
       && item.bundle == bundle && item.itemType == "recording_finalization" && item.producer.None?
       && rec.identity.session == r.session && rec.identity.run == r.run && rec.identity.invocation == r.invocation
       && item.meta == RecoveryMeta(id, i.outcome, rec)
  }

  /** A machine's proof is its own: made by the recording's completed invocation in its run and session. */
  lemma MachineProofIsOwn(w: World, r: Resource, rec: Recording)
    ensures MachineProven(w, r, rec) <==>
      && r.invocation.Some? && r.invocation.value in w.completed && rec.manifest.Some?
      && exists key :: key in w.items && w.items[key].bundle in w.bundles &&
           var item, b := w.items[key], w.bundles[w.items[key].bundle];
           && b.machine && b.producer == r.invocation && b.run == Some(r.run) && b.session == r.session
           && item.producer == r.invocation && item.meta.digest == rec.manifest.value.digest
           && item.meta.dispositions == rec.dispositions
  {
    if MachineProven(w, r, rec) {
      var key :| key in w.items && MachineItem(w, r, rec, key);
      assert w.items[key].bundle in w.bundles;
    }
    if r.invocation.Some? && rec.manifest.Some? {
      assert forall key :: key in w.items && w.items[key].bundle in w.bundles ==>
        (MachineItem(w, r, rec, key) <==>
           && w.bundles[w.items[key].bundle].machine && w.bundles[w.items[key].bundle].producer == r.invocation
           && w.bundles[w.items[key].bundle].run == Some(r.run) && w.bundles[w.items[key].bundle].session == r.session
           && w.items[key].producer == r.invocation && w.items[key].meta.digest == rec.manifest.value.digest
           && w.items[key].meta.dispositions == rec.dispositions);
    }
  }

  /** A recovery's proof is its own too: of an aborted verifier of the run, naming owner, manifest and outcome. */
  lemma RecoveryProofIsOwn(w: World, id: string, r: Resource, rec: Recording)
    requires RecoveryProven(w, id, r, rec)
    ensures var bundle := RecoveryBundle(id);
      && rec.receipt == Some(bundle) && bundle in w.bundles && ManifestItem(bundle) in w.items
      && r.invocation.Some? && r.invocation.value in w.invocations
      && var i, meta := w.invocations[r.invocation.value], w.items[ManifestItem(bundle)].meta;
         && i.run == r.run && i.verifyJourney && i.outcome in {FailedOutcome, CancelledOutcome, InterruptedOutcome}
         && meta.source == Some(Source(id, rec.identity, i.outcome, rec.manifest))
         && (rec.manifest.Some? ==> meta.digest == rec.manifest.value.digest) && meta.dispositions == rec.dispositions
         && w.bundles[bundle].session == r.session && w.bundles[bundle].verdict == "inconclusive"
  {
  }

  // ---------- dispositions of an aborted recording ----------

  /** What became of one file; the archived bytes are verified outside this model. */
  predicate Disposed(f: File, d: Disposition, blobOk: File -> bool) {
    && f.path == d.path && f.kind == d.kind && f.size == d.size
    && (|| (d.status == "archived" && f.status == "available" && d.blob == f.sha256 && f.size.Some? && blobOk(f))
        || (d.status == "missing" && f.status == "missing" && d.errorCode == f.errorCode)
        || (d.status == "omitted_budget"
            && d.errorCode in {Some("RECORDING_BYTE_BUDGET_EXCEEDED"), Some("RECORDING_ITEM_BUDGET_EXCEEDED")}))
  }

  predicate CountsAsArchived(f: File, d: Disposition) {
    d.status == "archived" && f.status == "available" && d.blob == f.sha256
  }

  function ArchivedBytes(files: seq<File>, list: seq<Disposition>): nat
    requires |files| == |list|
  {
    if files == [] then 0
    else
      var n := |files| - 1;
      ArchivedBytes(files[..n], list[..n]) +
      if CountsAsArchived(files[n], list[n]) && files[n].size.Some? then files[n].size.value else 0
  }

  /** Every file accounted for, one disposition each, and the archive within its budget. */
  predicate DispositionsValid(rec: Recording, blobOk: File -> bool) {
    && rec.manifest.Some? && rec.manifest.value.files.Some? && rec.dispositions.Array?
    && var files, list := rec.manifest.value.files.value, rec.dispositions.list;
       && |files| == |list| && |files| <= MAX_FILES
       && (forall i :: 0 <= i < |files| ==> Disposed(files[i], list[i], blobOk))
       && ArchivedBytes(files, list) <= MAX_ARCHIVED_BYTES
  }

  /** Each file of a fully disposed recording is archived with its own bytes, missing, or over the budget. */
  lemma DispositionsAccountFor(rec: Recording, blobOk: File -> bool, i: nat)
    requires DispositionsValid(rec, blobOk) && i < |rec.manifest.value.files.value|
    ensures var f, d := rec.manifest.value.files.value[i], rec.dispositions.list[i];
      && d.path == f.path && d.kind == f.kind && d.size == f.size
      && d.status in {"archived", "missing", "omitted_budget"}
      && (d.status == "archived" ==> f.status == "available" && d.blob == f.sha256 && f.size.Some? && blobOk(f))
      && (d.status == "missing" ==> f.status == "missing" && d.errorCode == f.errorCode)
      && (d.status == "omitted_budget" ==>
            d.errorCode in {Some("RECORDING_BYTE_BUDGET_EXCEEDED"), Some("RECORDING_ITEM_BUDGET_EXCEEDED")})
  {
    var f, d := rec.manifest.value.files.value[i], rec.dispositions.list[i];
    assert Disposed(f, d, blobOk);
  }

  /** One file: what is left of the budget, unless the file is not accounted for or exceeds it. */
  method CheckFile(f: File, d: Disposition, remaining: nat, blobOk: File -> bool) returns (left: Option<nat>)
    ensures left.Some? <==> Disposed(f, d, blobOk) && (CountsAsArchived(f, d) ==> f.size.value <= remaining)
    ensures left.Some? ==> left.value == remaining - if CountsAsArchived(f, d) then f.size.value else 0
  {
    if f.path != d.path || f.kind != d.kind || f.size != d.size { return None; }
    if CountsAsArchived(f, d) {
      if f.size.None? || f.size.value > remaining { return None; }
      return if blobOk(f) then Some(remaining - f.size.value) else None;
    }
    if d.status == "missing" && f.status == "missing" && d.errorCode == f.errorCode { return Some(remaining); }
    if d.status == "omitted_budget"
       && d.errorCode in {Some("RECORDING_BYTE_BUDGET_EXCEEDED"), Some("RECORDING_ITEM_BUDGET_EXCEEDED")} {
      return Some(remaining);
    }
    return None;
  }

  /** The budget is spent file by file; the first file over it, or not accounted for, fails all. */
  method ValidateRecoveryDispositions(rec: Recording, blobOk: File -> bool) returns (ok: bool)
    ensures ok == DispositionsValid(rec, blobOk)
  {
    if rec.manifest.None? || rec.manifest.value.files.None? || rec.dispositions.NotAnArray? { return false; }
    var files, list := rec.manifest.value.files.value, rec.dispositions.list;
    if |files| > MAX_FILES || |files| != |list| { return false; }
    var remaining := MAX_ARCHIVED_BYTES;
    for i := 0 to |files|
      invariant forall k :: 0 <= k < i ==> Disposed(files[k], list[k], blobOk)
      invariant remaining == MAX_ARCHIVED_BYTES - ArchivedBytes(files[..i], list[..i])
    {
      var left := CheckFile(files[i], list[i], remaining, blobOk);
      if left.None? {
        BadFileFailsAll(rec, blobOk, i, remaining);
        return false;
      }
      ArchivedStep(files, list, i);
      remaining := left.value;
    }
    AllDisposedIsValid(rec, blobOk);
    return true;
  }

  lemma AllDisposedIsValid(rec: Recording, blobOk: File -> bool)
    requires rec.manifest.Some? && rec.manifest.value.files.Some? && rec.dispositions.Array?
    requires var files, list := rec.manifest.value.files.value, rec.dispositions.list;
      && |files| == |list| && |files| <= MAX_FILES
      && (forall i :: 0 <= i < |files| ==> Disposed(files[i], list[i], blobOk))
      && ArchivedBytes(files[..|files|], list[..|files|]) <= MAX_ARCHIVED_BYTES
    ensures DispositionsValid(rec, blobOk)
  {
    var files, list := rec.manifest.value.files.value, rec.dispositions.list;
    assert files[..|files|] == files && list[..|files|] == list;
  }

  /** A file that is not accounted for, or does not fit into what is left of the budget, fails the whole. */
  lemma BadFileFailsAll(rec: Recording, blobOk: File -> bool, i: nat, remaining: nat)
    requires rec.manifest.Some? && rec.manifest.value.files.Some? && rec.dispositions.Array?
    requires var files, list := rec.manifest.value.files.value, rec.dispositions.list;
      && |files| == |list| && i < |files| && remaining == MAX_ARCHIVED_BYTES - ArchivedBytes(files[..i], list[..i])
      && !(Disposed(files[i], list[i], blobOk)
           && (CountsAsArchived(files[i], list[i]) ==> files[i].size.value <= remaining))
    ensures !DispositionsValid(rec, blobOk)
  {
    var files, list := rec.manifest.value.files.value, rec.dispositions.list;
    ArchivedStep(files, list, i);
    ArchivedGrows(files, list, i + 1);
  }

  lemma ArchivedStep(files: seq<File>, list: seq<Disposition>, i: nat)
    requires |files| == |list| && i < |files|
    ensures ArchivedBytes(files[..i + 1], list[..i + 1]) ==
            ArchivedBytes(files[..i], list[..i]) +
            if CountsAsArchived(files[i], list[i]) && files[i].size.Some? then files[i].size.value else 0
  {
    assert files[..i + 1][..i] == files[..i] && list[..i + 1][..i] == list[..i];
  }

  lemma {:induction false} ArchivedGrows(files: seq<File>, list: seq<Disposition>, n: nat)
    requires |files| == |list| && n <= |files|
    ensures ArchivedBytes(files[..n], list[..n]) <= ArchivedBytes(files, list)
    decreases |files| - n
  {
    if n == |files| {
      assert files[..n] == files && list[..n] == list;
    } else {
      ArchivedGrows(files, list, n + 1);
      assert files[..n + 1][..n] == files[..n] && list[..n + 1][..n] == list[..n];
    }
  }

  // ---------- the four writes ----------

  function Put(w: World, id: string, r: Resource, rec: Recording): World {
    w.(resources := w.resources[id := r.(recording := Some(rec), version := r.version + 1)])
  }

  function Seal(w: World, id: string, manifest: Manifest, dispositions: Dispositions, fits: bool):
      Result<World, Failure> {
    if id !in w.resources || w.resources[id].invocation.None? then Err(NoSuchRow)
    else
      var r := w.resources[id];
      if r.recording.None? then Err(OwnerMismatch)
      else
        var rec := r.recording.value;
        if || rec.schema != 1 || rec.phase !in {Reserved, Sealed} || rec.identity != manifest.identity
           || manifest.identity.run != r.run || manifest.identity.invocation != r.invocation then Err(OwnerMismatch)
        else if !HasDigest(manifest.digest) then Err(ManifestInvalid)
        else if rec.phase == Sealed &&
                (rec.manifest != Some(manifest) || (rec.dispositions != Array([]) && rec.dispositions != dispositions))
        then Err(ManifestImmutable)
        else if !fits then Err(ManifestLimit)
        else Ok(Put(w, id, r, rec.(phase := Sealed, manifest := Some(manifest), dispositions := dispositions)))
  }

  datatype Proof = Proof(notCreated: bool, identity: Identity)

  function AcknowledgeUncreated(w: World, id: string, proof: Proof): Result<World, Failure> {
    if id !in w.resources then Err(NoSuchRow)
    else
      var r := w.resources[id];
      if r.recording.None? then Err(AbsenceProofInvalid)
      else
        var rec := r.recording.value;
        if || !r.released || !proof.notCreated || rec.schema != 1 || rec.identity != proof.identity
           || proof.identity.run != r.run || proof.identity.session != r.session
           || proof.identity.invocation != r.invocation || r.invocation.None?
           || !(rec.phase == Reserved || (rec.phase == Acknowledged && rec.notCreated))
        then Err(AbsenceProofInvalid)
        else Ok(Put(w, id, r, rec.(phase := Acknowledged, notCreated := true)))
  }

  function DispositionKeys(bundle: string, list: seq<Disposition>): set<ItemKey> {
    set i | 0 <= i < |list| :: DispositionItem(bundle, i)
  }

  /** The items written for the dispositions, in order. */
  function DispositionItems(bundle: string, list: seq<Disposition>): map<ItemKey, Item> {
    map k | k in DispositionKeys(bundle, list) ::
      Item(bundle, "journey_recording", None, Meta(None, None, Array([list[k.index]])))
  }

  function RecoveryWrites(w: World, id: string, r: Resource, rec: Recording, outcome: Outcome): World
    requires rec.dispositions.Array?
  {
    var bundle := RecoveryBundle(id);
    Put(w, id, r, rec.(receipt := Some(bundle))).(
      bundles := w.bundles[bundle :=
                   Bundle(r.session, "browser_recording_finalization", true, "inconclusive", None, None)],
      items := (w.items + DispositionItems(bundle, rec.dispositions.list))
               [ManifestItem(bundle) := Item(bundle, "recording_finalization", None, RecoveryMeta(id, outcome, rec))])
  }

  function CompleteFailed(w: World, id: string, blobOk: File -> bool): Result<World, Failure> {
    if || id !in w.resources || w.resources[id].invocation.None?
       || w.resources[id].invocation.value !in w.invocations
       || w.invocations[w.resources[id].invocation.value].run != w.resources[id].run
       || !w.invocations[w.resources[id].invocation.value].verifyJourney
       || w.resources[id].session !in w.persistent
    then Err(NoSuchRow)
    else
      var r, outcome := w.resources[id], w.invocations[w.resources[id].invocation.value].outcome;
      if r.recording.None? then Err(RecoveryOwnerInvalid)
      else
        var rec, bundle := r.recording.value, RecoveryBundle(id);
        if || !r.released || !Aborted(outcome) || !r.browserSession || rec.schema != 1
           || rec.phase == Reserved || rec.identity.session != r.session || rec.identity.run != r.run
           || rec.identity.invocation != r.invocation
           || rec.manifest.None? || rec.manifest.value.identity != rec.identity
        then Err(RecoveryOwnerInvalid)
        else if !DispositionsValid(rec, blobOk) then Err(DispositionsInvalid)
        else if ManifestItem(bundle) in w.items then
          if w.items[ManifestItem(bundle)].meta != RecoveryMeta(id, outcome, rec) || rec.receipt != Some(bundle)
          then Err(RecoveryImmutable) else Ok(w)
        else if rec.phase != Sealed then Err(RecoveryPhaseInvalid)
        else if bundle in w.bundles || !(DispositionItems(bundle, rec.dispositions.list).Keys !! w.items.Keys)
        then Err(StorageConflict)
        else Ok(RecoveryWrites(w, id, r, rec, outcome))
  }

  /** False is a lost race or missing evidence, and leaves everything as it was. */
  function Advance(w: World, id: string, expected: int, acknowledged: bool): Result<(World, bool), Failure> {
    if id !in w.resources then Ok((w, false))
    else if w.resources[id].invocation.None? then Err(NoSuchRow)
    else
      var r := w.resources[id];
      if r.version != expected || !r.released || r.recording.None? then Ok((w, false))
      else
        var rec := r.recording.value;
        if rec.phase != (if acknowledged then AckEligible else Sealed) then Ok((w, false))
        else if acknowledged then Ok((Put(w, id, r, rec.(phase := Acknowledged)), true))
        else if rec.manifest.None? || rec.manifest.value.digest.None? then Err(ManifestInvalid)
        else if !MachineProven(w, r, rec) && !RecoveryProven(w, id, r, rec) then Ok((w, false))
        else Ok((Put(w, id, r, rec.(phase := AckEligible)), true))
  }

  // ---------- protection ----------

  function ParentOf(parents: map<string, Option<string>>, session: string): Option<string> {
    if session in parents then parents[session] else None
  }

  function Up(parents: map<string, Option<string>>, session: string, k: nat): Option<string> {
    if k == 0 then Some(session)
    else match Up(parents, session, k - 1)
      case None => None
      case Some(s) => ParentOf(parents, s)
  }

  /** The session subtree a deletion cascades over. */
  ghost predicate InTree(w: World, session: string, root: string) {
    root in w.parents && session in w.parents && exists k: nat :: Up(w.parents, session, k) == Some(root)
  }

  predicate Unsettled(r: Resource) { r.recording.Some? && r.recording.value.phase != Acknowledged }

  predicate BatchProtected(w: World, batch: string) {
    exists id :: id in w.resources && Unsettled(w.resources[id])
      && w.resources[id].recording.value.identity.batch == batch
  }

  ghost predicate RecordingsConsumed(w: World, root: string) {
    forall id :: id in w.resources && InTree(w, w.resources[id].session, root) ==> !Unsettled(w.resources[id])
  }

  /** Deletion takes the subtree's resources and evidence with it, or is refused. */
  ghost function DeleteSession(w: World, root: string): Result<World, Failure> {
    if !RecordingsConsumed(w, root) then Err(FinalizationPending)
    else
      var resources := map id | id in w.resources && !InTree(w, w.resources[id].session, root) :: w.resources[id];
      var bundles := map b | b in w.bundles && !InTree(w, w.bundles[b].session, root) :: w.bundles[b];
      var items := map k | k in w.items && w.items[k].bundle in bundles :: w.items[k];
      Ok(w.(resources := resources, bundles := bundles, items := items))
  }

  // ---------- runs ----------

  datatype Step =
    | Register(id: string, resource: Resource)
    | Physical(id: string, released: bool)
    | Facts(invocations: map<string, Invocation>, completed: set<string>, persistent: set<string>,
            parents: map<string, Option<string>>)
    | AddBundle(bundleId: string, bundle: Bundle)
    | AddItem(key: ItemKey, item: Item)
    | SealStep(id: string, manifest: Manifest, dispositions: Dispositions, fits: bool)
    | UncreatedStep(id: string, proof: Proof)
    | RecoverStep(id: string, blobOk: File -> bool)
    | AdvanceStep(id: string, expected: int, acknowledged: bool)
    | DeleteStep(session: string)

  /** A new registration reserves, or owns no recording. */
  predicate Registrable(r: Resource) {
    r.recording.None? || (r.recording.value.phase == Reserved && !r.recording.value.notCreated)
  }

  function OrSame(w: World, r: Result<World, Failure>): World { if r.Ok? then r.value else w }

  ghost function Next(w: World, step: Step): World {
    match step
    case Register(id, r) => if id in w.resources || !Registrable(r) then w else w.(resources := w.resources[id := r])
    case Physical(id, released) =>
      if id !in w.resources then w
      else w.(resources := w.resources[id :=
                w.resources[id].(released := released, version := w.resources[id].version + 1)])
    case Facts(invocations, completed, persistent, parents) =>
      w.(invocations := invocations, completed := completed, persistent := persistent, parents := parents)
    case AddBundle(b, bundle) => if b in w.bundles then w else w.(bundles := w.bundles[b := bundle])
    case AddItem(k, item) => if k in w.items then w else w.(items := w.items[k := item])
    case SealStep(id, manifest, dispositions, fits) => OrSame(w, Seal(w, id, manifest, dispositions, fits))
    case UncreatedStep(id, proof) => OrSame(w, AcknowledgeUncreated(w, id, proof))
    case RecoverStep(id, blobOk) => OrSame(w, CompleteFailed(w, id, blobOk))
    case AdvanceStep(id, expected, acknowledged) =>
      var result := Advance(w, id, expected, acknowledged);
      if result.Ok? then result.value.0 else w
    case DeleteStep(session) => OrSame(w, DeleteSession(w, session))
  }

  ghost predicate Trace(states: seq<World>, steps: seq<Step>) {
    && |states| == |steps| + 1
    && forall i :: 0 <= i < |steps| ==> states[i + 1] == Next(states[i], steps[i])
  }

  // ---------- evidence before acknowledgement ----------

  /** An item of a machine bundle of the resource's own session with the recording's digest and dispositions. */
  predicate Carries(w: World, r: Resource, rec: Recording, key: ItemKey) {
    && key in w.items && w.items[key].bundle in w.bundles
    && w.bundles[w.items[key].bundle].machine && w.bundles[w.items[key].bundle].session == r.session
    && rec.manifest.Some? && HasDigest(rec.manifest.value.digest)
    && w.items[key].meta.digest == rec.manifest.value.digest && w.items[key].meta.dispositions == rec.dispositions
  }

  ghost predicate Evidenced(w: World, r: Resource, rec: Recording) { exists key :: Carries(w, r, rec, key) }

  ghost predicate RecordingValid(w: World, r: Resource, rec: Recording) {
    && (rec.notCreated ==> rec.phase == Acknowledged)
    && (rec.phase != Reserved && !rec.notCreated ==>
          rec.manifest.Some? && HasDigest(rec.manifest.value.digest) && rec.manifest.value.identity == rec.identity)
    && (rec.phase in {AckEligible, Acknowledged} ==> rec.notCreated || Evidenced(w, r, rec))
  }

  ghost predicate Valid(w: World) {
    forall id :: id in w.resources && w.resources[id].recording.Some? ==>
      RecordingValid(w, w.resources[id], w.resources[id].recording.value)
  }

  /** More bundles and items never take evidence away. */
  lemma EvidenceStays(w: World, after: World, r: Resource, rec: Recording)
    requires RecordingValid(w, r, rec)
    requires forall b :: b in w.bundles && w.bundles[b].session == r.session ==>
        b in after.bundles && after.bundles[b] == w.bundles[b]
    requires forall k :: k in w.items && w.items[k].bundle in after.bundles ==>
        k in after.items && after.items[k] == w.items[k]
    ensures RecordingValid(after, r, rec)
  {
    if Evidenced(w, r, rec) {
      var key :| Carries(w, r, rec, key);
      assert Carries(after, r, rec, key);
    }
  }

  lemma PutKeepsValid(w: World, id: string, r: Resource, rec: Recording)
    requires Valid(w) && id in w.resources && r.session == w.resources[id].session && RecordingValid(w, r, rec)
    ensures Valid(Put(w, id, r, rec))
  {
    var after := Put(w, id, r, rec);
    forall x | x in after.resources && after.resources[x].recording.Some?
      ensures RecordingValid(after, after.resources[x], after.resources[x].recording.value)
    {
      if x == id {
        EvidenceIgnoresRow(w, after, r, after.resources[x], rec);
      } else {
        EvidenceIgnoresRow(w, after, w.resources[x], w.resources[x], w.resources[x].recording.value);
      }
    }
  }

  lemma EvidenceIgnoresRow(w: World, after: World, r: Resource, row: Resource, rec: Recording)
    requires RecordingValid(w, r, rec) && r.session == row.session
    requires after.bundles == w.bundles && after.items == w.items
    ensures RecordingValid(after, row, rec)
  {
    if Evidenced(w, r, rec) {
      var key :| Carries(w, r, rec, key);
      assert Carries(after, row, rec, key);
    }
  }

  /** Either proof is durable evidence of the recording as it stands. */
  lemma ProofIsEvidence(w: World, id: string, r: Resource, rec: Recording)
    requires rec.manifest.Some? && HasDigest(rec.manifest.value.digest)
    requires MachineProven(w, r, rec) || RecoveryProven(w, id, r, rec)
    ensures Evidenced(w, r, rec)
  {
    if MachineProven(w, r, rec) {
      var key :| key in w.items && MachineItem(w, r, rec, key);
      assert Carries(w, r, rec, key);
    } else {
      assert Carries(w, r, rec, ManifestItem(RecoveryBundle(id)));
    }
  }

  lemma AdvanceKeepsValid(w: World, id: string, expected: int, acknowledged: bool)
    requires Valid(w)
    ensures Advance(w, id, expected, acknowledged).Ok? ==> Valid(Advance(w, id, expected, acknowledged).value.0)
  {
    var result := Advance(w, id, expected, acknowledged);
    if result.Ok? && result.value.1 {
      var r := w.resources[id];
      var rec := r.recording.value;
      if acknowledged {
        if !rec.notCreated { EvidenceOf(w, r, rec, rec.(phase := Acknowledged)); }
        PutKeepsValid(w, id, r, rec.(phase := Acknowledged));
      } else {
        ProofIsEvidence(w, id, r, rec);
        EvidenceOf(w, r, rec, rec.(phase := AckEligible));
        PutKeepsValid(w, id, r, rec.(phase := AckEligible));
      }
    }
  }

  /** Evidence speaks of manifest and dispositions, not of the phase. */
  lemma EvidenceOf(w: World, r: Resource, rec: Recording, other: Recording)
    requires Evidenced(w, r, rec) && rec.manifest == other.manifest && rec.dispositions == other.dispositions
    ensures Evidenced(w, r, other)
  {
    var key :| Carries(w, r, rec, key);
    assert Carries(w, r, other, key);
  }

  lemma SealKeepsValid(w: World, id: string, manifest: Manifest, dispositions: Dispositions, fits: bool)
    requires Valid(w)
    ensures Valid(OrSame(w, Seal(w, id, manifest, dispositions, fits)))
  {
    if Seal(w, id, manifest, dispositions, fits).Ok? {
      var r := w.resources[id];
      PutKeepsValid(w, id, r,
        r.recording.value.(phase := Sealed, manifest := Some(manifest), dispositions := dispositions));
    }
  }

  lemma UncreatedKeepsValid(w: World, id: string, proof: Proof)
    requires Valid(w)
    ensures Valid(OrSame(w, AcknowledgeUncreated(w, id, proof)))
  {
    if AcknowledgeUncreated(w, id, proof).Ok? {
      var r := w.resources[id];
      PutKeepsValid(w, id, r, r.recording.value.(phase := Acknowledged, notCreated := true));
    }
  }

  lemma RecoverKeepsValid(w: World, id: string, blobOk: File -> bool)
    requires Valid(w)
    ensures Valid(OrSame(w, CompleteFailed(w, id, blobOk)))
  {
    var result := CompleteFailed(w, id, blobOk);
    if result.Ok? && result.value != w {
      var r := w.resources[id];
      var rec, bundle := r.recording.value, RecoveryBundle(id);
      var received := rec.(receipt := Some(bundle));
      PutKeepsValid(w, id, r, received);
      var put := Put(w, id, r, received);
      MoreEvidenceKeepsValid(put, result.value);
    }
  }

  lemma MoreEvidenceKeepsValid(w: World, after: World)
    requires Valid(w) && after.resources == w.resources
    requires forall b :: b in w.bundles ==> b in after.bundles && after.bundles[b] == w.bundles[b]
    requires forall k :: k in w.items ==> k in after.items && after.items[k] == w.items[k]
    ensures Valid(after)
  {
    forall id | id in after.resources && after.resources[id].recording.Some?
      ensures RecordingValid(after, after.resources[id], after.resources[id].recording.value)
    {
      EvidenceStays(w, after, w.resources[id], w.resources[id].recording.value);
    }
  }

  lemma DeleteKeepsValid(w: World, root: string)
    requires Valid(w)
    ensures Valid(OrSame(w, DeleteSession(w, root)))
  {
    if RecordingsConsumed(w, root) {
      var after := DeleteSession(w, root).value;
      forall id | id in after.resources && after.resources[id].recording.Some?
        ensures RecordingValid(after, after.resources[id], after.resources[id].recording.value)
      {
        EvidenceStays(w, after, w.resources[id], w.resources[id].recording.value);
      }
    }
  }

  lemma StepKeepsValid(w: World, step: Step)
    requires Valid(w)
    ensures Valid(Next(w, step))
  {
    match step
    case SealStep(id, manifest, dispositions, fits) => SealKeepsValid(w, id, manifest, dispositions, fits);
    case UncreatedStep(id, proof) => UncreatedKeepsValid(w, id, proof);
    case RecoverStep(id, blobOk) => RecoverKeepsValid(w, id, blobOk);
    case AdvanceStep(id, expected, acknowledged) => AdvanceKeepsValid(w, id, expected, acknowledged);
    case DeleteStep(session) => DeleteKeepsValid(w, session);
    case Register(id, r) => if id !in w.resources && Registrable(r) { RegisterKeepsValid(w, id, r); }
    case Physical(id, released) =>
      if id in w.resources {
        PhysicalKeepsValid(w, id, w.resources[id].(released := released, version := w.resources[id].version + 1));
      }
    case Facts(_, _, _, _) => MoreEvidenceKeepsValid(w, Next(w, step));
    case AddBundle(_, _) => MoreEvidenceKeepsValid(w, Next(w, step));
    case AddItem(_, _) => MoreEvidenceKeepsValid(w, Next(w, step));
  }

  lemma PhysicalKeepsValid(w: World, id: string, r: Resource)
    requires Valid(w)
    requires id in w.resources
    requires r.recording == w.resources[id].recording
    requires r.session == w.resources[id].session
    ensures Valid(w.(resources := w.resources[id := r]))
  {
    var after := w.(resources := w.resources[id := r]);
    forall x | x in after.resources && after.resources[x].recording.Some?
      ensures RecordingValid(after, after.resources[x], after.resources[x].recording.value)
    {
      EvidenceIgnoresRow(w, after, w.resources[x], after.resources[x], w.resources[x].recording.value);
    }
  }

  lemma RegisterKeepsValid(w: World, id: string, r: Resource)
    requires Valid(w) && Registrable(r)
    ensures Valid(w.(resources := w.resources[id := r]))
  {
    var after := w.(resources := w.resources[id := r]);
    forall x | x in after.resources && after.resources[x].recording.Some?
      ensures RecordingValid(after, after.resources[x], after.resources[x].recording.value)
    {
      if x != id {
        EvidenceIgnoresRow(w, after, w.resources[x], w.resources[x], w.resources[x].recording.value);
      }
    }
  }

  /**
   In every reachable state a recording that may be consumed, or was, is proven never created or
   has durable evidence with its own manifest digest and dispositions.
   */
  lemma {:induction false} ConsumedOnlyWithEvidence(states: seq<World>, steps: seq<Step>, n: nat)
    requires Trace(states, steps) && n <= |steps| && states[0].resources == map[]
    ensures Valid(states[n])
    decreases n
  {
    if n > 0 {
      ConsumedOnlyWithEvidence(states, steps, n - 1);
      StepKeepsValid(states[n - 1], steps[n - 1]);
    }
  }

  // ---------- only forward ----------

  function Rank(p: Phase): nat {
    match p case Reserved => 0 case Sealed => 1 case AckEligible => 2 case Acknowledged => 3
  }

  /**
   How a row may change: phases only rise, a sealed manifest is final, its dispositions change
   once from empty at most and never after `sealed`, and every change takes a new version.
   */
  predicate Forward(a: Resource, b: Resource) {
    && (a == b || a.version < b.version)
    && a.session == b.session && a.run == b.run && a.invocation == b.invocation
    && (a.recording.None? <==> b.recording.None?)
    && (a.recording.Some? ==>
          var x, y := a.recording.value, b.recording.value;
          && x.identity == y.identity && Rank(x.phase) <= Rank(y.phase)
          && (x.phase != Reserved ==> y.manifest == x.manifest)
          && (x.phase != Reserved && x.dispositions != Array([]) ==> y.dispositions == x.dispositions)
          && (x.phase in {AckEligible, Acknowledged} ==> y.dispositions == x.dispositions)
          && (x.notCreated ==> y.notCreated))
  }

  /** Row x after a write to row id: forward, and settled only as the write says. */
  ghost predicate RowAfter(w: World, after: World, x: string, maySettle: bool) {
    && x in w.resources && x in after.resources && Forward(w.resources[x], after.resources[x])
    && (Unsettled(w.resources[x]) && !Unsettled(after.resources[x]) ==> maySettle)
  }

  lemma SealMoves(w: World, id: string, manifest: Manifest, dispositions: Dispositions, fits: bool, x: string)
    requires x in w.resources
    ensures RowAfter(w, OrSame(w, Seal(w, id, manifest, dispositions, fits)), x, false)
  {
  }

  predicate SettlesUncreated(w: World, step: Step, x: string) {
    && step.UncreatedStep? && step.id == x && x in w.resources && step.proof.notCreated && w.resources[x].released
    && w.resources[x].recording.Some? && w.resources[x].recording.value.phase == Reserved
  }

  lemma UncreatedMoves(w: World, id: string, proof: Proof, x: string)
    requires x in w.resources
    ensures RowAfter(w, OrSame(w, AcknowledgeUncreated(w, id, proof)), x,
        SettlesUncreated(w, UncreatedStep(id, proof), x))
  {
  }

  lemma RecoverMoves(w: World, id: string, blobOk: File -> bool, x: string)
    requires x in w.resources
    ensures RowAfter(w, OrSame(w, CompleteFailed(w, id, blobOk)), x, false)
  {
  }

  predicate SettlesAdvanced(w: World, step: Step, x: string) {
    && step.AdvanceStep? && step.id == x && step.acknowledged && x in w.resources
    && w.resources[x].recording.Some? && w.resources[x].recording.value.phase == AckEligible
  }

  lemma AdvanceMoves(w: World, id: string, expected: int, acknowledged: bool, x: string)
    requires x in w.resources
    ensures RowAfter(w, Next(w, AdvanceStep(id, expected, acknowledged)), x,
                     SettlesAdvanced(w, AdvanceStep(id, expected, acknowledged), x))
  {
  }

  lemma DeleteMoves(w: World, root: string, x: string)
    requires x in w.resources
    ensures var after := OrSame(w, DeleteSession(w, root));
      if x in after.resources then RowAfter(w, after, x, false) else !Unsettled(w.resources[x])
  {
  }

  lemma StepMoves(w: World, step: Step, x: string)
    requires x in w.resources
    ensures if x in Next(w, step).resources
            then RowAfter(w, Next(w, step), x, SettlesUncreated(w, step, x) || SettlesAdvanced(w, step, x))
            else !Unsettled(w.resources[x])
  {
    match step
    case SealStep(id, manifest, dispositions, fits) => SealMoves(w, id, manifest, dispositions, fits, x);
    case UncreatedStep(id, proof) => UncreatedMoves(w, id, proof, x);
    case RecoverStep(id, blobOk) => RecoverMoves(w, id, blobOk, x);
    case AdvanceStep(id, expected, acknowledged) => AdvanceMoves(w, id, expected, acknowledged, x);
    case DeleteStep(session) => DeleteMoves(w, session, x);
    case _ =>
  }

  lemma ForwardComposes(a: Resource, b: Resource, c: Resource)
    requires Forward(a, b) && Forward(b, c)
    ensures Forward(a, c)
  {
  }

  /** Over any stretch of a run in which the row exists, it only moves forward. */
  lemma {:induction false} RecordingsOnlyMoveForward(states: seq<World>, steps: seq<Step>, m: nat, n: nat, id: string)
    requires Trace(states, steps) && m <= n <= |steps|
    requires forall i :: m <= i <= n ==> id in states[i].resources
    ensures Forward(states[m].resources[id], states[n].resources[id])
    decreases n
  {
    if m < n {
      RecordingsOnlyMoveForward(states, steps, m, n - 1, id);
      assert states[n - 1 + 1] == Next(states[n - 1], steps[n - 1]);
      StepMoves(states[n - 1], steps[n - 1], id);
      ForwardComposes(states[m].resources[id], states[n - 1].resources[id], states[n].resources[id]);
    }
  }

  // ---------- protection until acknowledgement ----------

  /** An unsettled recording stays until it is acknowledged: with evidence, or with proof that it was never created. */
  lemma ProtectedUntilAcknowledged(w: World, step: Step, id: string)
    requires Valid(w) && id in w.resources && Unsettled(w.resources[id])
    ensures id in Next(w, step).resources
    ensures Unsettled(Next(w, step).resources[id]) || SettlesUncreated(w, step, id)
         || (SettlesAdvanced(w, step, id) && Evidenced(w, w.resources[id], w.resources[id].recording.value))
  {
    StepMoves(w, step, id);
  }

  /** A batch protected from pruning stays so until the step that acknowledges one of its own recordings. */
  lemma BatchProtectedUntilAcknowledged(w: World, step: Step, batch: string) returns (id: string)
    requires Valid(w) && BatchProtected(w, batch) && !BatchProtected(Next(w, step), batch)
    ensures id in w.resources && Unsettled(w.resources[id]) && w.resources[id].recording.value.identity.batch == batch
    ensures SettlesUncreated(w, step, id) || SettlesAdvanced(w, step, id)
  {
    id :| id in w.resources && Unsettled(w.resources[id]) && w.resources[id].recording.value.identity.batch == batch;
    StepMoves(w, step, id);
    assert id in Next(w, step).resources;
    assert Next(w, step).resources[id].recording.value.identity.batch == batch;
  }

  /** A session can be deleted exactly when every recording in its tree is acknowledged. */
  lemma DeletionNeedsAcknowledgement(w: World, root: string)
    ensures DeleteSession(w, root).Ok? <==>
              forall id :: id in w.resources && InTree(w, w.resources[id].session, root)
                           && w.resources[id].recording.Some? ==>
                w.resources[id].recording.value.phase == Acknowledged
  {
    assert forall id :: id in w.resources ==>
      (Unsettled(w.resources[id]) <==>
         w.resources[id].recording.Some? && w.resources[id].recording.value.phase != Acknowledged);
  }

  /** A deletion that goes through loses no unsettled recording and leaves every other row alone. */
  lemma DeletionLosesNothing(w: World, root: string)
    requires DeleteSession(w, root).Ok?
    ensures var after := DeleteSession(w, root).value;
      forall id :: id in w.resources ==>
        if InTree(w, w.resources[id].session, root) then id !in after.resources && !Unsettled(w.resources[id])
        else id in after.resources && after.resources[id] == w.resources[id]
  {
  }

  /** Recovery evidence written once lets the recording advance as long as nothing was sealed anew. */
  lemma RecoveryEnablesAdvance(w: World, id: string, blobOk: File -> bool)
    requires CompleteFailed(w, id, blobOk).Ok? && w.resources[id].recording.value.phase == Sealed
    requires ManifestItem(RecoveryBundle(id)) !in w.items
    requires HasDigest(w.resources[id].recording.value.manifest.value.digest)
    ensures var after := CompleteFailed(w, id, blobOk).value;
      && id in after.resources
      && Advance(after, id, after.resources[id].version, false).Ok?
      && Advance(after, id, after.resources[id].version, false).value.1
  {
    var after := CompleteFailed(w, id, blobOk).value;
    var r := after.resources[id];
    assert RecoveryProven(after, id, r, r.recording.value);
  }

  // ---------- what goes through ----------

  /** A row with a recording of the known schema and an invocation. */
  predicate HasRecording(w: World, id: string) {
    && id in w.resources && w.resources[id].recording.Some? && w.resources[id].recording.value.schema == 1
    && w.resources[id].invocation.Some?
  }

  predicate OwnedBy(r: Resource, i: Identity) { i.run == r.run && i.invocation == r.invocation }

  /** A seal goes through exactly for the recording's own identity, once, or again with the same manifest. */
  lemma SealExactly(w: World, id: string, manifest: Manifest, dispositions: Dispositions, fits: bool)
    ensures Seal(w, id, manifest, dispositions, fits).Ok? <==>
      && HasRecording(w, id) && HasDigest(manifest.digest) && fits
      && var r, rec := w.resources[id], w.resources[id].recording.value;
         && rec.identity == manifest.identity && OwnedBy(r, manifest.identity)
         && (|| rec.phase == Reserved
             || (rec.phase == Sealed && rec.manifest == Some(manifest)
                 && (rec.dispositions == Array([]) || rec.dispositions == dispositions)))
    ensures Seal(w, id, manifest, dispositions, fits).Ok? ==>
      var after := Seal(w, id, manifest, dispositions, fits).value;
      && id in after.resources && after.resources[id].version == w.resources[id].version + 1
      && after.resources[id].recording ==
         Some(w.resources[id].recording.value.(
                phase := Sealed, manifest := Some(manifest), dispositions := dispositions))
  {
  }

  /** Absence is acknowledged exactly for a released row whose recording was never sealed, by its own proof. */
  lemma AbsenceExactly(w: World, id: string, proof: Proof)
    ensures AcknowledgeUncreated(w, id, proof).Ok? <==>
      && HasRecording(w, id) && proof.notCreated
      && var r, rec := w.resources[id], w.resources[id].recording.value;
         && r.released && rec.identity == proof.identity && OwnedBy(r, proof.identity)
         && proof.identity.session == r.session
         && (rec.phase == Reserved || (rec.phase == Acknowledged && rec.notCreated))
    ensures AcknowledgeUncreated(w, id, proof).Ok? ==>
      var after := AcknowledgeUncreated(w, id, proof).value;
      && id in after.resources && after.resources[id].version == w.resources[id].version + 1
      && after.resources[id].recording ==
         Some(w.resources[id].recording.value.(phase := Acknowledged, notCreated := true))
  {
  }

  /**
   An advance moves exactly the row of the expected version: to eligible from sealed with evidence, to
   acknowledged from eligible without asking for it again.
   */
  lemma AdvanceExactly(w: World, id: string, expected: int, acknowledged: bool)
    requires id in w.resources && w.resources[id].invocation.Some?
    ensures var r := w.resources[id];
      var ready := r.version == expected && r.released && r.recording.Some?
                   && r.recording.value.phase == if acknowledged then AckEligible else Sealed;
      var result := Advance(w, id, expected, acknowledged);
      && (result.Ok? && result.value.1 <==>
            && ready
            && (!acknowledged ==>
                  && r.recording.value.manifest.Some? && r.recording.value.manifest.value.digest.Some?
                  && (MachineProven(w, r, r.recording.value) || RecoveryProven(w, id, r, r.recording.value))))
      && (result.Ok? && !result.value.1 ==> result.value.0 == w)
      && (result.Ok? && result.value.1 ==>
            result.value.0.resources ==
              w.resources[id := r.(version := r.version + 1,
                                   recording := Some(r.recording.value.(
                                     phase := if acknowledged then Acknowledged else AckEligible)))])
      && (result.Err? ==> ready && !acknowledged && result.error == ManifestInvalid)
  {
  }

  /** A whole life: an eligible, released recording is acknowledged by the next advance and then free to be pruned. */
  lemma EligibleIsAcknowledged(w: World, id: string)
    requires id in w.resources && w.resources[id].invocation.Some? && w.resources[id].released
    requires w.resources[id].recording.Some? && w.resources[id].recording.value.phase == AckEligible
    ensures var after := Next(w, AdvanceStep(id, w.resources[id].version, true));
      id in after.resources && !Unsettled(after.resources[id])
  {
  }

  /** Recovery goes through exactly for the aborted owner's sealed, fully disposed recording, once. */
  lemma RecoveryExactly(w: World, id: string, blobOk: File -> bool)
    ensures CompleteFailed(w, id, blobOk).Ok? <==>
      && HasRecording(w, id)
      && var r, rec, bundle := w.resources[id], w.resources[id].recording.value, RecoveryBundle(id);
         && r.invocation.value in w.invocations && r.session in w.persistent && r.released && r.browserSession
         && var i := w.invocations[r.invocation.value];
            && i.run == r.run && i.verifyJourney && Aborted(i.outcome)
            && OwnedBy(r, rec.identity) && rec.identity.session == r.session && rec.phase != Reserved
            && rec.manifest.Some? && rec.manifest.value.identity == rec.identity
            && DispositionsValid(rec, blobOk)
            && if ManifestItem(bundle) in w.items
               then && w.items[ManifestItem(bundle)].meta == RecoveryMeta(id, i.outcome, rec)
                    && rec.receipt == Some(bundle)
               else && rec.phase == Sealed && bundle !in w.bundles
                    && forall k :: 0 <= k < |rec.dispositions.list| ==> DispositionItem(bundle, k) !in w.items
  {
    if HasRecording(w, id) && w.resources[id].recording.value.dispositions.Array? {
      var bundle, list := RecoveryBundle(id), w.resources[id].recording.value.dispositions.list;
      var keys := DispositionItems(bundle, list).Keys;
      assert forall k :: 0 <= k < |list| ==> DispositionItem(bundle, k) in keys;
      assert forall key :: key in keys ==> exists k :: 0 <= k < |list| && key == DispositionItem(bundle, k);
    }
  }

  /** A recovery leaves its bundle in the row's session, and its name on the recording. */
  lemma RecoveryNamesItsBundle(w: World, id: string, blobOk: File -> bool)
    requires CompleteFailed(w, id, blobOk).Ok? && ManifestItem(RecoveryBundle(id)) !in w.items
    ensures var after, bundle := CompleteFailed(w, id, blobOk).value, RecoveryBundle(id);
      && after.resources.Keys == w.resources.Keys
      && after.resources[id].recording == Some(w.resources[id].recording.value.(receipt := Some(bundle)))
      && after.bundles.Keys == w.bundles.Keys + {bundle} && after.bundles[bundle].session == w.resources[id].session
  {
  }

  /** It leaves an item with the recording's dispositions and one for each of them, and every older item as it was. */
  lemma RecoveryStoresEvidence(w: World, id: string, blobOk: File -> bool)
    requires CompleteFailed(w, id, blobOk).Ok? && ManifestItem(RecoveryBundle(id)) !in w.items
    ensures var items, bundle := CompleteFailed(w, id, blobOk).value.items, RecoveryBundle(id);
      var rec := w.resources[id].recording.value;
      && ManifestItem(bundle) in items && items[ManifestItem(bundle)].meta.dispositions == rec.dispositions
      && (forall k :: 0 <= k < |rec.dispositions.list| ==>
            DispositionItem(bundle, k) in items
            && items[DispositionItem(bundle, k)].meta.dispositions == Array([rec.dispositions.list[k]]))
      && (forall key :: key in w.items ==> key in items && items[key] == w.items[key])
  {
    var bundle, list := RecoveryBundle(id), w.resources[id].recording.value.dispositions.list;
    ItemOfEach(bundle, list);
    assert DispositionItems(bundle, list).Keys !! w.items.Keys;
  }

  lemma KeyOfEach(bundle: string, list: seq<Disposition>, k: nat)
    requires k < |list|
    ensures DispositionItem(bundle, k) in DispositionKeys(bundle, list)
  {
  }

  lemma ItemOfEach(bundle: string, list: seq<Disposition>)
    ensures forall k :: 0 <= k < |list| ==>
              DispositionItem(bundle, k) in DispositionItems(bundle, list)
              && DispositionItems(bundle, list)[DispositionItem(bundle, k)].meta.dispositions == Array([list[k]])
  {
    forall k | 0 <= k < |list|
      ensures DispositionItem(bundle, k) in DispositionItems(bundle, list)
      ensures DispositionItems(bundle, list)[DispositionItem(bundle, k)].meta.dispositions == Array([list[k]])
    {
      KeyOfEach(bundle, list, k);
      assert DispositionItem(bundle, k).index == k;
    }
  }

  // ---------- sealing anew after recovery ----------

  /** Recovery evidence was written, and the sealed dispositions are final and others than it says. */
  predicate Stuck(w: World, id: string) {
    var bundle := RecoveryBundle(id);
    && id in w.resources && w.resources[id].recording.Some? && w.resources[id].invocation.Some?
    && bundle in w.bundles && ManifestItem(bundle) in w.items
    && var r, rec, item := w.resources[id], w.resources[id].recording.value, w.items[ManifestItem(bundle)];
       && rec.phase == Sealed && rec.manifest.Some? && HasDigest(rec.manifest.value.digest)
       && rec.receipt == Some(bundle) && w.bundles[bundle].session == r.session
       && item.bundle == bundle && item.meta.dispositions != rec.dispositions && rec.dispositions != Array([])
  }

  predicate MachineProvenAt(w: World, id: string) {
    && id in w.resources && w.resources[id].recording.Some?
    && MachineProven(w, w.resources[id], w.resources[id].recording.value)
  }

  /**
   Once recovery evidence was written, an accepted seal keeps it proven exactly when it names the
   recorded dispositions; otherwise the recording is stuck.
   */
  lemma ResealAfterRecovery(w: World, id: string, manifest: Manifest, dispositions: Dispositions, fits: bool)
    requires id in w.resources && w.resources[id].recording.Some?
    requires w.resources[id].recording.value.phase == Sealed
    requires RecoveryProven(w, id, w.resources[id], w.resources[id].recording.value)
    requires Seal(w, id, manifest, dispositions, fits).Ok?
    ensures var after := Seal(w, id, manifest, dispositions, fits).value;
      && id in after.resources && after.resources[id].recording.Some?
      && (RecoveryProven(after, id, after.resources[id], after.resources[id].recording.value) <==>
            dispositions == w.resources[id].recording.value.dispositions)
      && (Stuck(after, id) <==> dispositions != w.resources[id].recording.value.dispositions)
  {
  }

  /** A stuck recording is refused by every recovery, and advances exactly on a verifier's own evidence. */
  lemma StuckNeedsMachineEvidence(w: World, id: string, blobOk: File -> bool)
    requires Stuck(w, id)
    ensures CompleteFailed(w, id, blobOk).Err?
    ensures var r, result := w.resources[id], Advance(w, id, w.resources[id].version, false);
      result.Ok? && (result.value.1 <==> r.released && MachineProvenAt(w, id))
  {
  }

  lemma StuckStaysOneStep(w: World, step: Step, id: string)
    requires Stuck(w, id) && !MachineProvenAt(w, id)
    ensures Stuck(Next(w, step), id)
  {
    match step
    case SealStep(other, manifest, dispositions, fits) => SealKeepsStuck(w, other, manifest, dispositions, fits, id);
    case RecoverStep(other, blobOk) => RecoverKeepsStuck(w, other, blobOk, id);
    case AdvanceStep(other, expected, acknowledged) => AdvanceKeepsStuck(w, other, expected, acknowledged, id);
    case DeleteStep(session) => DeleteKeepsStuck(w, session, id);
    case _ =>
  }

  lemma SealKeepsStuck(w: World, other: string, manifest: Manifest, dispositions: Dispositions, fits: bool, id: string)
    requires Stuck(w, id)
    ensures Stuck(OrSame(w, Seal(w, other, manifest, dispositions, fits)), id)
  {
  }

  lemma RecoverKeepsStuck(w: World, other: string, blobOk: File -> bool, id: string)
    requires Stuck(w, id)
    ensures Stuck(OrSame(w, CompleteFailed(w, other, blobOk)), id)
  {
  }

  lemma AdvanceKeepsStuck(w: World, other: string, expected: int, acknowledged: bool, id: string)
    requires Stuck(w, id) && !MachineProvenAt(w, id)
    ensures Stuck(Next(w, AdvanceStep(other, expected, acknowledged)), id)
  {
  }

  lemma DeleteKeepsStuck(w: World, session: string, id: string)
    requires Stuck(w, id)
    ensures Stuck(OrSame(w, DeleteSession(w, session)), id)
  {
    if RecordingsConsumed(w, session) {
      assert Unsettled(w.resources[id]);
      assert !InTree(w, w.resources[id].session, session);
    }
  }

  /** Over every run a stuck recording stays sealed until a verifier's own evidence is there. */
  lemma {:induction false} StuckUntilMachineProven(states: seq<World>, steps: seq<Step>, m: nat, n: nat, id: string)
    requires Trace(states, steps) && m <= n <= |steps| && Stuck(states[m], id)
    requires forall i :: m <= i < n ==> !MachineProvenAt(states[i], id)
    ensures Stuck(states[n], id)
    decreases n
  {
    if m < n {
      StuckUntilMachineProven(states, steps, m, n - 1, id);
      assert states[n - 1 + 1] == Next(states[n - 1], steps[n - 1]);
      StuckStaysOneStep(states[n - 1], steps[n - 1], id);
    }
  }

  /** Only a recording whose manifest lists no file can be sealed into that state right after its recovery. */
  lemma StuckNeedsNoFiles(w: World, id: string, blobOk: File -> bool, manifest: Manifest, dispositions: Dispositions,
                          fits: bool)
    requires CompleteFailed(w, id, blobOk).Ok?
    requires w.resources[id].recording.value.phase == Sealed
    requires Seal(CompleteFailed(w, id, blobOk).value, id, manifest, dispositions, fits).Ok?
    requires Stuck(Seal(CompleteFailed(w, id, blobOk).value, id, manifest, dispositions, fits).value, id)
    ensures manifest.files == Some([]) && w.resources[id].recording.value.dispositions == Array([])
  {
  }

  /** A failed verifier's recording without any file, recovered with no dispositions and then sealed with one. */
  lemma ResealWitness(blobOk: File -> bool) returns (sealed: World, recovered: World, resealed: World)
    ensures CompleteFailed(sealed, "x", blobOk) == Ok(recovered)
    ensures sealed.resources["x"].recording.value.manifest.value.files == Some([])
    ensures Seal(recovered, "x", sealed.resources["x"].recording.value.manifest.value,
                 Array([Disposition("p", "k", None, "missing", None, None)]), true) == Ok(resealed)
    ensures Stuck(resealed, "x")
  {
    var identity := Identity("s", "r", Some("i"), "b");
    var manifest := Manifest(identity, Some(seq(64, i => 'a')), Some([]));
    var rec := Recording(1, Sealed, identity, Some(manifest), Array([]), false, None);
    var row := Resource(1, true, true, "s", "r", Some("i"), Some(rec));
    sealed := World(map["x" := row], map["i" := Invocation("r", true, FailedOutcome)], {}, {"s"}, map[], map[], map[]);
    assert DispositionsValid(rec, blobOk);
    recovered := CompleteFailed(sealed, "x", blobOk).value;
    var r := recovered.resources["x"];
    assert RecoveryProven(recovered, "x", r, r.recording.value);
    var dispositions := Array([Disposition("p", "k", None, "missing", None, None)]);
    assert r.recording.value.dispositions == Array([]);
    resealed := Seal(recovered, "x", manifest, dispositions, true).value;
    ResealAfterRecovery(recovered, "x", manifest, dispositions, true);
  }

  // ---------- the store ----------

  class RecordingStore {
    var world: World

    constructor (world: World)
      ensures this.world == world
    {
      this.world := world;
    }

    method SealBrowserRecording(id: string, manifest: Manifest, dispositions: Dispositions, fits: bool)
      returns (failure: Option<Failure>)
      modifies this
      ensures world == OrSame(old(world), Seal(old(world), id, manifest, dispositions, fits))
      ensures failure == match Seal(old(world), id, manifest, dispositions, fits)
                         case Ok(_) => None
                         case Err(e) => Some(e)
    {
      if id !in world.resources { return Some(NoSuchRow); }
      var r := world.resources[id];
      if r.invocation.None? { return Some(NoSuchRow); }
      if r.recording.None? { return Some(OwnerMismatch); }
      var state := r.recording.value;
      if state.schema != 1 || state.phase !in {Reserved, Sealed} || state.identity != manifest.identity
         || manifest.identity.run != r.run || manifest.identity.invocation != r.invocation {
        return Some(OwnerMismatch);
      }
      if !HasDigest(manifest.digest) { return Some(ManifestInvalid); }
      if state.phase == Sealed
         && (state.manifest != Some(manifest)
              || (state.dispositions != Array([]) && state.dispositions != dispositions)) {
        return Some(ManifestImmutable);
      }
      state := state.(phase := Sealed);
      state := state.(manifest := Some(manifest));
      state := state.(dispositions := dispositions);
      if !fits { return Some(ManifestLimit); }
      world := world.(resources := world.resources[id := r.(recording := Some(state), version := r.version + 1)]);
      return None;
    }

    method AcknowledgeUncreatedRecording(id: string, proof: Proof) returns (failure: Option<Failure>)
      modifies this
      ensures world == OrSame(old(world), AcknowledgeUncreated(old(world), id, proof))
      ensures failure == match AcknowledgeUncreated(old(world), id, proof) case Ok(_) => None case Err(e) => Some(e)
    {
      if id !in world.resources { return Some(NoSuchRow); }
      var r := world.resources[id];
      if r.recording.None? { return Some(AbsenceProofInvalid); }
      var state := r.recording.value;
      var open := state.phase == Reserved || (state.phase == Acknowledged && state.notCreated);
      if !r.released || !proof.notCreated || state.schema != 1 || state.identity != proof.identity
         || proof.identity.run != r.run || proof.identity.session != r.session
         || proof.identity.invocation != r.invocation || r.invocation.None? || !open {
        return Some(AbsenceProofInvalid);
      }
      state := state.(phase := Acknowledged);
      state := state.(notCreated := true);
      world := world.(resources := world.resources[id := r.(recording := Some(state), version := r.version + 1)]);
      return None;
    }

    method AdvanceBrowserRecording(id: string, expected: int, acknowledged: bool)
        returns (result: Result<bool, Failure>)
      modifies this
      ensures match Advance(old(world), id, expected, acknowledged)
        case Ok((next, moved)) => result == Ok(moved) && world == next
        case Err(e) => result == Err(e) && world == old(world)
    {
      if id !in world.resources { return Ok(false); }
      var r := world.resources[id];
      if r.invocation.None? { return Err(NoSuchRow); }
      if r.version != expected || !r.released || r.recording.None? { return Ok(false); }
      var state := r.recording.value;
      var source := if acknowledged then AckEligible else Sealed;
      if state.phase != source { return Ok(false); }
      if !acknowledged {
        if state.manifest.None? || state.manifest.value.digest.None? { return Err(ManifestInvalid); }
        if !MachineProven(world, r, state) && !RecoveryProven(world, id, r, state) { return Ok(false); }
      }
      state := state.(phase := if acknowledged then Acknowledged else AckEligible);
      world := world.(resources := world.resources[id := r.(recording := Some(state), version := r.version + 1)]);
      return Ok(true);
    }

    method CompleteFailedRecording(id: string, blobOk: File -> bool) returns (failure: Option<Failure>)
      modifies this
      ensures world == OrSame(old(world), CompleteFailed(old(world), id, blobOk))
      ensures failure == match CompleteFailed(old(world), id, blobOk) case Ok(_) => None case Err(e) => Some(e)
    {
      if id !in world.resources { return Some(NoSuchRow); }
      var r := world.resources[id];
      if r.invocation.None? || r.invocation.value !in world.invocations { return Some(NoSuchRow); }
      var invocation := world.invocations[r.invocation.value];
      if invocation.run != r.run || !invocation.verifyJourney || r.session !in world.persistent {
        return Some(NoSuchRow);
      }
      if r.recording.None? { return Some(RecoveryOwnerInvalid); }
      var state := r.recording.value;
      if !r.released || !Aborted(invocation.outcome) || !r.browserSession || state.schema != 1
         || state.phase == Reserved || state.identity.session != r.session || state.identity.run != r.run
         || state.identity.invocation != r.invocation
         || state.manifest.None? || state.manifest.value.identity != state.identity {
        return Some(RecoveryOwnerInvalid);
      }
      var valid := ValidateRecoveryDispositions(state, blobOk);
      if !valid { return Some(DispositionsInvalid); }
      var bundle := RecoveryBundle(id);
      if ManifestItem(bundle) in world.items {
        if world.items[ManifestItem(bundle)].meta != RecoveryMeta(id, invocation.outcome, state)
           || state.receipt != Some(bundle) {
          return Some(RecoveryImmutable);
        }
        return None;
      }
      if state.phase != Sealed { return Some(RecoveryPhaseInvalid); }
      var rows := DispositionItems(bundle, state.dispositions.list);
      if bundle in world.bundles || !(rows.Keys !! world.items.Keys) { return Some(StorageConflict); }
      world := RecoveryWrites(world, id, r, state, invocation.outcome);
      return None;
    }
  }
}
