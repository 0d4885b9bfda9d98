/**
 Registering a file that a tool wrote (crates/zk-db/src/artifact.rs, record_produced_file_artifact):
 whatever was verified on other bytes at that path is invalidated in the same write.
 */
module ArtifactRecords {
  import opened Wrappers
  import opened Ascii
  import opened ArtifactInvalidation
  import opened ArtifactTerminal

  /** The receipt of one file effect. */
  datatype Produced = Produced(
    run: string, session: string, workspace: string, toolUse: string, invocation: string,
    path: string, operation: string, hash: string, size: int)

  datatype Owner = Owner(run: string, session: string, toolUse: string)

  /** An artifact_recorded event. */
  datatype Recorded = Recorded(run: string, manifest: string, artifact: string, path: string, hash: string)

  /** A run has one manifest, so manifests are kept by run. */
  datatype Archive = Archive(
    manifests: map<string, Manifest>, tables: Tables, owners: map<string, Owner>, ephemeral: set<string>,
    recorded: seq<Recorded>)

  /** The identifiers and the time that the write draws. */
  datatype Drawn = Drawn(manifest: string, artifact: string, at: string, now: int)

  datatype RecordError = OperationInvalid | PathInvalid | SealInvalid | ProducerMismatch | OwnerMismatch

  predicate UniquePaths(entries: seq<Entry>) {
    forall i, j :: 0 <= i < j < |entries| ==> entries[i].path != entries[j].path
  }

  predicate ArchiveValid(s: Archive) {
    && ArtifactInvalidation.Valid(s.tables)
    && forall r :: r in s.manifests ==> s.manifests[r].run == r && UniquePaths(s.manifests[r].entries)
  }

  // ---------- the receipt ----------

  /** The names of a path, in order. */
  function Components(text: string): seq<string>
    decreases |text|
  {
    var name := FirstName(text);
    if |name| == |text| then Named(name)
    else Named(name) + Components(text[|name| + 1..])
  }

  function Named(name: string): seq<string> { if name == "" || name == "." then [] else [name] }

  function FirstName(text: string): (name: string)
    ensures name <= text && (|name| < |text| ==> text[|name|] == '/')
  {
    if text == "" || text[0] == '/' then "" else [text[0]] + FirstName(text[1..])
  }

  predicate IsAbsolute(text: string) { text != "" && text[0] == '/' }

  function InvalidReceipt(p: Produced): Option<RecordError> {
    if p.operation !in {"created", "modified"} then Some(OperationInvalid)
    else if !IsAbsolute(p.path) || !IsAbsolute(p.workspace) || !(Components(p.workspace) <= Components(p.path))
    then Some(PathInvalid)
    else if !IsDigest(p.hash) || p.size < 0 then Some(SealInvalid)
    else None
  }

  // ---------- manifests ----------

  predicate SameBytes(e: Entry, p: Produced) { e.sealedHash == Some(p.hash) && e.size == Some(p.size) }

  predicate ExactRetry(m: Manifest, p: Produced) {
    exists i :: 0 <= i < |m.entries| &&
      var e := m.entries[i];
      && e.path == p.path && e.producer == Some(p.invocation) && e.toolUse == p.toolUse
      && e.operation == p.operation && SameBytes(e, p)
  }

  predicate CountsAsVerified(m: Manifest, e: Entry) {
    m.state == "verified" || e.state in {"integrity_verified", "content_verified"}
  }

  /** A verified projection that rested on other bytes at the path. */
  predicate Affected(m: Manifest, p: Produced) {
    exists i :: 0 <= i < |m.entries| &&
      m.entries[i].path == p.path && CountsAsVerified(m, m.entries[i]) && !SameBytes(m.entries[i], p)
  }

  function UnverifyEntry(e: Entry, p: Produced, hidden: bool, at: string): Entry {
    if e.path != p.path then e
    else e.(state := "unverified", actualHash := if hidden then None else Some(p.hash),
            failureCode := Some("ARTIFACT_CHANGED_AFTER_VERIFICATION"), updatedAt := at)
  }

  function Unverify(m: Manifest, p: Produced, hidden: bool, at: string): Manifest {
    m.(state := "unverified", updatedAt := at,
       entries := seq(|m.entries|, i requires 0 <= i < |m.entries| => UnverifyEntry(m.entries[i], p, hidden, at)))
  }

  function AffectedRuns(s: Archive, p: Produced): set<string> {
    set r | r in s.manifests && Affected(s.manifests[r], p)
  }

  /** Hashes of ephemeral content are not copied into the mark. */
  function Marked(m: Manifest, p: Produced, ephemeral: set<string>, at: string): Manifest {
    Unverify(m, p, p.session in ephemeral || m.session in ephemeral, at)
  }

  function UnverifyAll(s: Archive, p: Produced, at: string): map<string, Manifest> {
    map r | r in s.manifests ::
      if Affected(s.manifests[r], p)
      then Marked(s.manifests[r], p, s.ephemeral, at)
      else s.manifests[r]
  }

  function SealedEntry(p: Produced, artifact: string, createdAt: string, at: string): Entry {
    Entry(artifact, p.toolUse, Some(p.invocation), p.path, p.operation, "sealed", Some(p.hash), None, Some(p.size),
          None, None, None, createdAt, at)
  }

  function IndexOf(entries: seq<Entry>, path: string): (i: nat)
    ensures i <= |entries|
    ensures i < |entries| ==> entries[i].path == path
    ensures forall k :: 0 <= k < i ==> entries[k].path != path
  {
    if entries == [] || entries[0].path == path then 0 else 1 + IndexOf(entries[1..], path)
  }

  /** Inserted or, on the same path, replaced; a replaced entry keeps its identity and its age. */
  function Upsert(entries: seq<Entry>, p: Produced, drawn: Drawn): seq<Entry> {
    var i := IndexOf(entries, p.path);
    if i == |entries| then entries + [SealedEntry(p, drawn.artifact, drawn.at, drawn.at)]
    else entries[i := SealedEntry(p, entries[i].artifactId, entries[i].createdAt, drawn.at)]
  }

  function OwnManifest(manifests: map<string, Manifest>, p: Produced, drawn: Drawn): Manifest {
    if p.run in manifests then manifests[p.run]
    else Manifest(drawn.manifest, p.run, p.session, p.workspace, "sealed", drawn.at, drawn.at, [])
  }

  // ---------- the write ----------

  /** One invalidation after another, in the order the affected rows were read. */
  ghost function InvalidateAll(t: Tables, manifests: map<string, Manifest>, order: seq<string>, now: int):
      (after: Tables)
    requires ArtifactInvalidation.Valid(t) && forall i :: 0 <= i < |order| ==> order[i] in manifests
    ensures ArtifactInvalidation.Valid(after)
  {
    if order == [] then t
    else
      var n := |order| - 1;
      var before := InvalidateAll(t, manifests, order[..n], now);
      InvalidatedIsValid(before, manifests[order[n]].id, order[n], now);
      Invalidated(before, manifests[order[n]].id, order[n], now)
  }

  lemma InvalidateAllSnoc(t: Tables, manifests: map<string, Manifest>, order: seq<string>, n: nat, now: int)
    requires ArtifactInvalidation.Valid(t) && (forall i :: 0 <= i < |order| ==> order[i] in manifests) && n < |order|
    ensures InvalidateAll(t, manifests, order[..n + 1], now) ==
            Invalidated(InvalidateAll(t, manifests, order[..n], now), manifests[order[n]].id, order[n], now)
  {
    assert order[..n + 1][..n] == order[..n];
  }

  ghost predicate Enumerates(order: seq<string>, ids: set<string>) {
    && (forall i, j :: 0 <= i < j < |order| ==> order[i] != order[j])
    && (forall i :: 0 <= i < |order| ==> order[i] in ids)
    && forall r :: r in ids ==> r in order
  }

  ghost function Record(s: Archive, p: Produced, drawn: Drawn, order: seq<string>): Result<Archive, RecordError>
    requires ArchiveValid(s) && Enumerates(order, AffectedRuns(s, p))
  {
    if InvalidReceipt(p).Some? then Err(InvalidReceipt(p).value)
    else if p.invocation !in s.owners || s.owners[p.invocation] != Owner(p.run, p.session, p.toolUse) then
      Err(ProducerMismatch)
    else if p.run in s.manifests && ExactRetry(s.manifests[p.run], p) then Ok(s)
    else
      var manifests := UnverifyAll(s, p, drawn.at);
      var own := OwnManifest(manifests, p, drawn);
      if own.session != p.session || own.workspace != p.workspace then Err(OwnerMismatch)
      else
        Ok(s.(manifests := manifests[p.run := own.(state := "sealed", updatedAt := drawn.at,
                                                   entries := Upsert(own.entries, p, drawn))],
              tables := InvalidateAll(s.tables, s.manifests, order, drawn.now),
              recorded := s.recorded + [Recorded(p.run, own.id, drawn.artifact, p.path, p.hash)]))
  }

  // ---------- what it keeps and achieves ----------

  lemma UpsertIsFramed(entries: seq<Entry>, p: Produced, drawn: Drawn)
    requires UniquePaths(entries)
    ensures var after := Upsert(entries, p, drawn);
      && UniquePaths(after) && |entries| <= |after| <= |entries| + 1
      && (forall i :: 0 <= i < |entries| && entries[i].path != p.path ==> after[i] == entries[i])
      && (forall i :: 0 <= i < |after| && after[i].path == p.path ==>
            SameBytes(after[i], p) && after[i].producer == Some(p.invocation) && after[i].toolUse == p.toolUse
            && after[i].operation == p.operation && after[i].state == "sealed")
      && exists i :: 0 <= i < |after| && after[i].path == p.path
  {
    var after, i := Upsert(entries, p, drawn), IndexOf(entries, p.path);
    assert after[i].path == p.path;
  }

  /** Marking changes no identity, no owner and no path, and no entry at another path. */
  ghost predicate SameOutline(a: Manifest, b: Manifest, path: string) {
    && a.id == b.id && a.run == b.run && a.session == b.session && a.workspace == b.workspace
    && |a.entries| == |b.entries|
    && forall i :: 0 <= i < |a.entries| ==>
         && b.entries[i].path == a.entries[i].path && b.entries[i].artifactId == a.entries[i].artifactId
         && (a.entries[i].path != path ==> b.entries[i] == a.entries[i])
  }

  lemma UnverifyKeepsOutline(s: Archive, p: Produced, at: string, run: string)
    requires ArchiveValid(s) && run in s.manifests
    ensures SameOutline(s.manifests[run], UnverifyAll(s, p, at)[run], p.path)
    ensures UniquePaths(UnverifyAll(s, p, at)[run].entries)
  {
    var a, b := s.manifests[run], UnverifyAll(s, p, at)[run];
    assert UniquePaths(a.entries);
    assert SameOutline(a, b, p.path);
  }

  lemma OwnHasUniquePaths(s: Archive, p: Produced, drawn: Drawn)
    requires ArchiveValid(s)
    ensures UniquePaths(OwnManifest(UnverifyAll(s, p, drawn.at), p, drawn).entries)
    ensures OwnManifest(UnverifyAll(s, p, drawn.at), p, drawn).run == p.run
  {
    if p.run in s.manifests { UnverifyKeepsOutline(s, p, drawn.at, p.run); }
  }

  lemma RecordKeepsValid(s: Archive, p: Produced, drawn: Drawn, order: seq<string>)
    requires ArchiveValid(s) && Enumerates(order, AffectedRuns(s, p)) && Record(s, p, drawn, order).Ok?
    ensures ArchiveValid(Record(s, p, drawn, order).value)
  {
    if !(p.run in s.manifests && ExactRetry(s.manifests[p.run], p)) {
      var after := Record(s, p, drawn, order).value;
      OwnHasUniquePaths(s, p, drawn);
      UpsertIsFramed(OwnManifest(UnverifyAll(s, p, drawn.at), p, drawn).entries, p, drawn);
      forall r | r in after.manifests ensures after.manifests[r].run == r && UniquePaths(after.manifests[r].entries) {
        if r != p.run { UnverifyKeepsOutline(s, p, drawn.at, r); }
      }
    }
  }

  /** Nothing counts as verified any more on other bytes at the path, in any run's manifest. */
  lemma NoVerifiedOtherBytes(s: Archive, p: Produced, drawn: Drawn, order: seq<string>, run: string, i: nat)
    requires ArchiveValid(s) && Enumerates(order, AffectedRuns(s, p)) && Record(s, p, drawn, order).Ok?
    requires !(p.run in s.manifests && ExactRetry(s.manifests[p.run], p))
    requires var after := Record(s, p, drawn, order).value.manifests;
      run in after && i < |after[run].entries| && after[run].entries[i].path == p.path
    ensures var m := Record(s, p, drawn, order).value.manifests[run];
      CountsAsVerified(m, m.entries[i]) ==> SameBytes(m.entries[i], p)
  {
    var manifests := UnverifyAll(s, p, drawn.at);
    OwnHasUniquePaths(s, p, drawn);
    UpsertIsFramed(OwnManifest(manifests, p, drawn).entries, p, drawn);
    if run != p.run {
      assert manifests[run].entries[i].path == s.manifests[run].entries[i].path;
    }
  }

  /** Everything that was verified on the strength of an affected manifest is retracted. */
  lemma {:induction false} AffectedAreRetracted(t: Tables, manifests: map<string, Manifest>, order: seq<string>,
      now: int, run: string)
    requires ArtifactInvalidation.Valid(t) && forall i :: 0 <= i < |order| ==> order[i] in manifests
    requires run in order
    ensures Retracted(InvalidateAll(t, manifests, order, now), run)
    decreases |order|
  {
    var n := |order| - 1;
    var before := InvalidateAll(t, manifests, order[..n], now);
    if run == order[n] {
      InvalidationRetracts(before, manifests[run].id, run, now);
    } else {
      assert order == order[..n] + [order[n]];
      AffectedAreRetracted(t, manifests, order[..n], now, run);
      RetractedStays(before, manifests[order[n]].id, order[n], now, run);
    }
  }

  lemma RecordRetractsAffected(s: Archive, p: Produced, drawn: Drawn, order: seq<string>, run: string)
    requires ArchiveValid(s) && Enumerates(order, AffectedRuns(s, p)) && Record(s, p, drawn, order).Ok?
    requires !(p.run in s.manifests && ExactRetry(s.manifests[p.run], p)) && run in AffectedRuns(s, p)
    ensures Retracted(Record(s, p, drawn, order).value.tables, run)
  {
    AffectedAreRetracted(s.tables, s.manifests, order, drawn.now, run);
  }

  /** Other paths are never touched, and a manifest that is neither affected nor the run's own not at all. */
  lemma RecordIsFramed(s: Archive, p: Produced, drawn: Drawn, order: seq<string>, run: string)
    requires ArchiveValid(s) && Enumerates(order, AffectedRuns(s, p)) && Record(s, p, drawn, order).Ok?
    requires run in s.manifests
    ensures var a, b := s.manifests[run], Record(s, p, drawn, order).value.manifests;
      && run in b && b[run].id == a.id && |a.entries| <= |b[run].entries|
      && (forall i :: 0 <= i < |a.entries| && a.entries[i].path != p.path ==> b[run].entries[i] == a.entries[i])
      && (run != p.run && run !in AffectedRuns(s, p) ==> b[run] == a)
  {
    if !(p.run in s.manifests && ExactRetry(s.manifests[p.run], p)) {
      UnverifyKeepsOutline(s, p, drawn.at, run);
      if run == p.run {
        UpsertIsFramed(UnverifyAll(s, p, drawn.at)[run].entries, p, drawn);
      }
    }
  }

  /** Sending the same receipt again changes nothing, whatever was verified in between is its own affair. */
  lemma RetryChangesNothing(s: Archive, p: Produced, drawn: Drawn, order: seq<string>, again: Drawn,
      affected: seq<string>)
    requires ArchiveValid(s) && Enumerates(order, AffectedRuns(s, p)) && Record(s, p, drawn, order).Ok?
    requires Enumerates(affected, AffectedRuns(Record(s, p, drawn, order).value, p))
    ensures ArchiveValid(Record(s, p, drawn, order).value)
    ensures Record(Record(s, p, drawn, order).value, p, again, affected) == Ok(Record(s, p, drawn, order).value)
  {
    RecordKeepsValid(s, p, drawn, order);
    if !(p.run in s.manifests && ExactRetry(s.manifests[p.run], p)) {
      var manifests := UnverifyAll(s, p, drawn.at);
      OwnHasUniquePaths(s, p, drawn);
      UpsertIsFramed(OwnManifest(manifests, p, drawn).entries, p, drawn);
      assert ExactRetry(Record(s, p, drawn, order).value.manifests[p.run], p);
    }
  }

  /** Who may record: the invocation's own run, session and tool use, into a manifest of that session and workspace. */
  predicate MayRecord(s: Archive, p: Produced) {
    && p.invocation in s.owners && s.owners[p.invocation] == Owner(p.run, p.session, p.toolUse)
    && (p.run in s.manifests && !ExactRetry(s.manifests[p.run], p) ==>
          s.manifests[p.run].session == p.session && s.manifests[p.run].workspace == p.workspace)
  }

  /** What a receipt must be in itself. */
  predicate GoodReceipt(p: Produced) {
    && (p.operation == "created" || p.operation == "modified")
    && IsAbsolute(p.path) && IsAbsolute(p.workspace) && Components(p.workspace) <= Components(p.path)
    && IsDigest(p.hash) && 0 <= p.size
  }

  /** A receipt is accepted exactly when it is good in itself and its sender may record. */
  lemma RecordAcceptedExactly(s: Archive, p: Produced, drawn: Drawn, order: seq<string>)
    requires ArchiveValid(s) && Enumerates(order, AffectedRuns(s, p))
    ensures Record(s, p, drawn, order).Ok? <==> GoodReceipt(p) && MayRecord(s, p)
    ensures Record(s, p, drawn, order).Err? ==>
              Record(s, p, drawn, order).error ==
                if p.operation != "created" && p.operation != "modified" then OperationInvalid
                else if !IsAbsolute(p.path) || !IsAbsolute(p.workspace)
                        || !(Components(p.workspace) <= Components(p.path)) then PathInvalid
                else if !GoodReceipt(p) then SealInvalid
                else if p.invocation !in s.owners || s.owners[p.invocation] != Owner(p.run, p.session, p.toolUse)
                     then ProducerMismatch
                else OwnerMismatch
  {
    if p.run in s.manifests { UnverifyKeepsOutline(s, p, drawn.at, p.run); }
  }

  /** The entry a manifest holds for the receipt: its bytes, its producer, its operation, sealed. */
  predicate Registers(m: Manifest, p: Produced) {
    exists i :: 0 <= i < |m.entries| &&
      var e := m.entries[i];
      && e.path == p.path && e.sealedHash == Some(p.hash) && e.size == Some(p.size)
      && e.producer == Some(p.invocation) && e.toolUse == p.toolUse && e.operation == p.operation
  }

  /** An accepted receipt is in its run's manifest; a new one leaves the manifest sealed and writes one event for it. */
  lemma AcceptedIsRegistered(s: Archive, p: Produced, drawn: Drawn, order: seq<string>)
    requires ArchiveValid(s) && Enumerates(order, AffectedRuns(s, p)) && Record(s, p, drawn, order).Ok?
    ensures var after := Record(s, p, drawn, order).value;
      && p.run in after.manifests && Registers(after.manifests[p.run], p)
      && after.owners == s.owners && after.ephemeral == s.ephemeral
      && (forall r :: r in after.manifests <==> r in s.manifests || r == p.run)
      && (!(p.run in s.manifests && ExactRetry(s.manifests[p.run], p)) ==>
            && after.manifests[p.run].state == "sealed" && |after.recorded| == |s.recorded| + 1
            && s.recorded <= after.recorded
            && var event := after.recorded[|s.recorded|];
               event.run == p.run && event.manifest == after.manifests[p.run].id && event.path == p.path
               && event.hash == p.hash)
  {
    if p.run in s.manifests && ExactRetry(s.manifests[p.run], p) {
      var m := s.manifests[p.run];
      var i :| 0 <= i < |m.entries| &&
        var e := m.entries[i];
        && e.path == p.path && e.producer == Some(p.invocation) && e.toolUse == p.toolUse
        && e.operation == p.operation && SameBytes(e, p);
      assert m.entries[i].path == p.path;
    } else {
      var own := OwnManifest(UnverifyAll(s, p, drawn.at), p, drawn);
      OwnHasUniquePaths(s, p, drawn);
      UpsertIsFramed(own.entries, p, drawn);
      var entries := Record(s, p, drawn, order).value.manifests[p.run].entries;
      var i :| 0 <= i < |entries| && entries[i].path == p.path;
      assert SameBytes(entries[i], p);
    }
  }

  /** A manifest counts at a path as verified on these bytes, or not at all. */
  predicate RestsOnSameBytes(m: Manifest, p: Produced) {
    forall i :: 0 <= i < |m.entries| && m.entries[i].path == p.path
                && (m.state == "verified" || m.entries[i].state == "integrity_verified"
                    || m.entries[i].state == "content_verified") ==>
      m.entries[i].sealedHash == Some(p.hash) && m.entries[i].size == Some(p.size)
  }

  /** Exactly the manifests of other runs that rested on other bytes at the path change. */
  lemma OthersChangeExactly(s: Archive, p: Produced, drawn: Drawn, order: seq<string>, run: string)
    requires ArchiveValid(s) && Enumerates(order, AffectedRuns(s, p)) && Record(s, p, drawn, order).Ok?
    requires !(p.run in s.manifests && ExactRetry(s.manifests[p.run], p)) && run in s.manifests && run != p.run
    ensures run in Record(s, p, drawn, order).value.manifests
    ensures RestsOnSameBytes(s.manifests[run], p) ==>
              Record(s, p, drawn, order).value.manifests[run] == s.manifests[run]
    ensures !RestsOnSameBytes(s.manifests[run], p) ==>
              Record(s, p, drawn, order).value.manifests[run].state == "unverified"
  {
    assert Affected(s.manifests[run], p) <==> !RestsOnSameBytes(s.manifests[run], p);
  }

  /** What an affected manifest of another run says afterwards; ephemeral content lends no hash to the mark. */
  lemma MarksSayWhy(s: Archive, p: Produced, drawn: Drawn, order: seq<string>, run: string, i: nat)
    requires ArchiveValid(s) && Enumerates(order, AffectedRuns(s, p)) && Record(s, p, drawn, order).Ok?
    requires !(p.run in s.manifests && ExactRetry(s.manifests[p.run], p)) && run in AffectedRuns(s, p) && run != p.run
    requires i < |s.manifests[run].entries| && s.manifests[run].entries[i].path == p.path
    ensures var m := Record(s, p, drawn, order).value.manifests[run];
      && m.state == "unverified" && i < |m.entries|
      && m.entries[i] == s.manifests[run].entries[i].(
           state := "unverified", failureCode := Some("ARTIFACT_CHANGED_AFTER_VERIFICATION"), updatedAt := drawn.at,
           actualHash := if p.session in s.ephemeral || s.manifests[run].session in s.ephemeral then None
                         else Some(p.hash))
  {
  }

  predicate UsesArtifact(entries: seq<Entry>, artifact: string) {
    exists i :: 0 <= i < |entries| && entries[i].artifactId == artifact
  }

  predicate HasPath(entries: seq<Entry>, path: string) { exists i :: 0 <= i < |entries| && entries[i].path == path }

  /** Only an entry that is new takes the identifier drawn for it. */
  lemma UpsertUsesDrawn(entries: seq<Entry>, p: Produced, drawn: Drawn)
    requires !UsesArtifact(entries, drawn.artifact)
    ensures UsesArtifact(Upsert(entries, p, drawn), drawn.artifact) <==> !HasPath(entries, p.path)
    ensures forall i :: 0 <= i < |Upsert(entries, p, drawn)|
                        && Upsert(entries, p, drawn)[i].artifactId == drawn.artifact ==>
              Upsert(entries, p, drawn)[i].path == p.path
  {
    var after, at := Upsert(entries, p, drawn), IndexOf(entries, p.path);
    if at < |entries| {
      assert entries[at].path == p.path;
    } else {
      assert after[at].artifactId == drawn.artifact;
    }
  }

  lemma OutlineKeepsNames(a: Manifest, b: Manifest, path: string, artifact: string)
    requires SameOutline(a, b, path)
    ensures HasPath(b.entries, path) <==> HasPath(a.entries, path)
    ensures UsesArtifact(b.entries, artifact) <==> UsesArtifact(a.entries, artifact)
  {
    if i :| 0 <= i < |a.entries| && a.entries[i].path == path { assert b.entries[i].path == path; }
    if i :| 0 <= i < |b.entries| && b.entries[i].path == path { assert a.entries[i].path == path; }
    if i :| 0 <= i < |a.entries| && a.entries[i].artifactId == artifact { assert b.entries[i].artifactId == artifact; }
    if i :| 0 <= i < |b.entries| && b.entries[i].artifactId == artifact { assert a.entries[i].artifactId == artifact; }
  }

  /**
   The event of an accepted receipt names an entry of the run's manifest, and then the path's own,
   exactly when the path had no entry before: a replaced entry keeps its identifier, and the
   event names the one that was drawn.
   */
  lemma EventNamesOnlyNewEntry(s: Archive, p: Produced, drawn: Drawn, order: seq<string>)
    requires ArchiveValid(s) && Enumerates(order, AffectedRuns(s, p)) && Record(s, p, drawn, order).Ok?
    requires !(p.run in s.manifests && ExactRetry(s.manifests[p.run], p))
    requires p.run in s.manifests ==> !UsesArtifact(s.manifests[p.run].entries, drawn.artifact)
    ensures var after := Record(s, p, drawn, order).value;
      var named := after.recorded[|s.recorded|].artifact;
      && |after.recorded| == |s.recorded| + 1 && p.run in after.manifests
      && (UsesArtifact(after.manifests[p.run].entries, named) <==>
            !(p.run in s.manifests && HasPath(s.manifests[p.run].entries, p.path)))
      && forall i :: 0 <= i < |after.manifests[p.run].entries|
                     && after.manifests[p.run].entries[i].artifactId == named ==>
           after.manifests[p.run].entries[i].path == p.path
  {
    var own := OwnManifest(UnverifyAll(s, p, drawn.at), p, drawn);
    if p.run in s.manifests {
      UnverifyKeepsOutline(s, p, drawn.at, p.run);
      OutlineKeepsNames(s.manifests[p.run], own, p.path, drawn.artifact);
    }
    UpsertUsesDrawn(own.entries, p, drawn);
  }

  /** Marking the enumerated rows marks exactly the affected ones. */
  lemma MarkedRowsAreAll(s: Archive, p: Produced, at: string, order: seq<string>, after: map<string, Manifest>)
    requires Enumerates(order, AffectedRuns(s, p)) && after.Keys == s.manifests.Keys
    requires forall k :: 0 <= k < |order| ==> after[order[k]] == Marked(s.manifests[order[k]], p, s.ephemeral, at)
    requires forall r :: r in after && r !in order ==> after[r] == s.manifests[r]
    ensures after == UnverifyAll(s, p, at)
  {
    forall r | r in after ensures after[r] == UnverifyAll(s, p, at)[r] {
      assert r in AffectedRuns(s, p) <==> Affected(s.manifests[r], p);
      if r in order {
        var k :| 0 <= k < |order| && order[k] == r;
      }
    }
  }

  // ---------- the transaction ----------

  class ArtifactRegistry {
    var manifests: map<string, Manifest>
    var owners: map<string, Owner>
    var ephemeral: set<string>
    var recorded: seq<Recorded>
    const projections: ArtifactStore

    ghost function View(): Archive
      reads this, projections
    {
      Archive(manifests, projections.Contents(), owners, ephemeral, recorded)
    }

    constructor (s: Archive)
      ensures View() == s
    {
      manifests, owners, ephemeral, recorded := s.manifests, s.owners, s.ephemeral, s.recorded;
      projections := new ArtifactStore(s.tables);
    }

    /** The affected rows in the order they are read. */
    method AffectedRows(p: Produced) returns (order: seq<string>)
      ensures Enumerates(order, AffectedRuns(View(), p))
    {
      order := [];
      var rest := manifests.Keys;
      while rest != {}
        invariant rest <= manifests.Keys
        invariant forall i, j :: 0 <= i < j < |order| ==> order[i] != order[j]
        invariant forall r :: r in order <==> r in manifests && r !in rest && Affected(manifests[r], p)
        decreases |rest|
      {
        var r :| r in rest;
        rest := rest - {r};
        if Affected(manifests[r], p) { order := order + [r]; }
      }
    }

    /** Invalidate, then mark: one affected manifest after the other. */
    method UnverifyRows(p: Produced, order: seq<string>, drawn: Drawn, hidden: set<string>)
      requires ArtifactInvalidation.Valid(projections.Contents())
      requires forall i :: 0 <= i < |order| ==> order[i] in manifests
      requires forall i, j :: 0 <= i < j < |order| ==> order[i] != order[j]
      modifies this`manifests, projections
      ensures manifests.Keys == old(manifests).Keys
      ensures forall k :: 0 <= k < |order| ==>
          manifests[order[k]] == Marked(old(manifests)[order[k]], p, hidden, drawn.at)
      ensures forall r :: r in manifests && r !in order ==> manifests[r] == old(manifests)[r]
      ensures projections.Contents() == InvalidateAll(old(projections.Contents()), old(manifests), order, drawn.now)
    {
      ghost var start, tables := manifests, projections.Contents();
      for n := 0 to |order|
        invariant manifests.Keys == start.Keys
        invariant forall k :: 0 <= k < n ==> manifests[order[k]] == Marked(start[order[k]], p, hidden, drawn.at)
        invariant forall k :: n <= k < |order| ==> manifests[order[k]] == start[order[k]]
        invariant forall r :: r in manifests && r !in order ==> manifests[r] == start[r]
        invariant projections.Contents() == InvalidateAll(tables, start, order[..n], drawn.now)
      {
        InvalidateAllSnoc(tables, start, order, n, drawn.now);
        InvalidateRow(order[n], drawn.now);
        manifests := manifests[order[n] := Marked(manifests[order[n]], p, hidden, drawn.at)];
      }
      assert order[..|order|] == order;
    }

    method InvalidateRow(run: string, now: int)
      requires run in manifests && ArtifactInvalidation.Valid(projections.Contents())
      modifies projections
      ensures projections.Contents() == Invalidated(old(projections.Contents()), manifests[run].id, run, now)
    {
      projections.InvalidateVerification(manifests[run].id, run, now);
    }

    /** A rejected owner rolls the marks back with the rest. */
    method RecordProducedFile(p: Produced, drawn: Drawn)
        returns (failure: Option<RecordError>, ghost order: seq<string>)
      requires ArchiveValid(View())
      modifies this`manifests, this`recorded, projections
      ensures Enumerates(order, AffectedRuns(old(View()), p))
      ensures match Record(old(View()), p, drawn, order)
        case Ok(after) => failure == None && View() == after
        case Err(e) => failure == Some(e) && View() == old(View())
    {
      var affected := AffectedRows(p);
      order := affected;
      if InvalidReceipt(p).Some? { return Some(InvalidReceipt(p).value), order; }
      if p.invocation !in owners || owners[p.invocation] != Owner(p.run, p.session, p.toolUse) {
        return Some(ProducerMismatch), order;
      }
      if p.run in manifests && ExactRetry(manifests[p.run], p) { return None, order; }
      if p.run in manifests && (manifests[p.run].session != p.session || manifests[p.run].workspace != p.workspace) {
        return Some(OwnerMismatch), order;
      }
      ghost var s := View();
      UnverifyRows(p, affected, drawn, ephemeral);
      MarkedRowsAreAll(s, p, drawn.at, order, manifests);
      var own := OwnManifest(manifests, p, drawn);
      var entries := Upsert(own.entries, p, drawn);
      manifests := manifests[p.run := own.(state := "sealed", updatedAt := drawn.at, entries := entries)];
      recorded := recorded + [Recorded(p.run, own.id, drawn.artifact, p.path, p.hash)];
      return None, order;
    }
  }
}
