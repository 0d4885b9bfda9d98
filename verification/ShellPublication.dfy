/**
 The write that publishes declared shell outputs (crates/zk-db/src/artifact.rs,
 record_declared_shell_artifacts_in_write): ownership, the checked receipts, the invalidation of
 every verified manifest that holds one of the files, and the run's own manifest, in one transaction.
 */
module ShellPublication {
  import opened Wrappers
  import opened ArtifactInvalidation
  import opened ArtifactTerminal
  import opened ArtifactRecords
  import opened ShellArtifacts

  datatype Batch = Batch(run: string, session: string, workspace: string, toolUse: string, invocation: string)

  /** What the persisted input of the invocation declares. */
  datatype DeclaredInput = Absent | Malformed | Undeclared | Declared(list: seq<Declaration>, background: bool)

  /** A succeeded, writing shell invocation. */
  datatype ShellInvocation = ShellInvocation(owner: Owner, input: DeclaredInput)

  datatype BatchError =
    NoSuchProducer | InputMalformed | NothingDeclared | Rejected(error: ShellError) | ForeignManifest

  datatype Draw = Draw(manifest: string, artifacts: nat -> string, at: string, now: int)

  datatype Published = Published(archive: Archive, recorded: bool)

  // ---------- marks ----------

  /** Any verified projection of the path, whatever bytes it rested on. */
  predicate AffectedAt(m: Manifest, path: string) {
    exists i :: 0 <= i < |m.entries| && m.entries[i].path == path && CountsAsVerified(m, m.entries[i])
  }

  function AffectedRunsAt(manifests: map<string, Manifest>, path: string): set<string> {
    set r | r in manifests && AffectedAt(manifests[r], path)
  }

  /** A mark never shows the new hash. */
  function AtPath(path: string): Produced { Produced("", "", "", "", "", path, "", "", 0) }

  function MarkedAt(m: Manifest, path: string, at: string): Manifest { Unverify(m, AtPath(path), true, at) }

  function MarkPath(manifests: map<string, Manifest>, path: string, at: string): map<string, Manifest> {
    map r | r in manifests :: if AffectedAt(manifests[r], path) then MarkedAt(manifests[r], path, at) else manifests[r]
  }

  /** The manifests after the first n receipts were marked. */
  function MarkFirst(manifests: map<string, Manifest>, receipts: seq<ShellReceipt>, n: nat, at: string):
    (after: map<string, Manifest>)
    requires n <= |receipts|
    ensures after.Keys == manifests.Keys
  {
    if n == 0 then manifests else MarkPath(MarkFirst(manifests, receipts, n - 1, at), receipts[n - 1].path, at)
  }

  /** For each receipt, the affected rows in the order they were read. */
  ghost predicate OrdersFit(manifests: map<string, Manifest>, receipts: seq<ShellReceipt>, orders: seq<seq<string>>,
                            n: nat, at: string)
    requires n <= |receipts|
  {
    && n <= |orders|
    && (n == 0
        || (OrdersFit(manifests, receipts, orders, n - 1, at)
            && Enumerates(orders[n - 1],
                          AffectedRunsAt(MarkFirst(manifests, receipts, n - 1, at), receipts[n - 1].path))))
  }

  lemma OrderFits(manifests: map<string, Manifest>, receipts: seq<ShellReceipt>, orders: seq<seq<string>>, n: nat,
                  at: string)
    requires 0 < n <= |receipts| && OrdersFit(manifests, receipts, orders, n, at)
    ensures OrdersFit(manifests, receipts, orders, n - 1, at)
    ensures Enumerates(orders[n - 1], AffectedRunsAt(MarkFirst(manifests, receipts, n - 1, at), receipts[n - 1].path))
  {
  }

  lemma EnumeratedAreKeys(order: seq<string>, manifests: map<string, Manifest>, path: string)
    requires Enumerates(order, AffectedRunsAt(manifests, path))
    ensures forall i :: 0 <= i < |order| ==> order[i] in manifests
    ensures forall r :: r in manifests && AffectedAt(manifests[r], path) ==> r in order
  {
  }

  ghost function InvalidateFirst(tables: Tables, manifests: map<string, Manifest>, receipts: seq<ShellReceipt>,
                                 orders: seq<seq<string>>, n: nat, draw: Draw): (after: Tables)
    requires ArtifactInvalidation.Valid(tables) && n <= |receipts| && OrdersFit(manifests, receipts, orders, n, draw.at)
    ensures ArtifactInvalidation.Valid(after)
  {
    if n == 0 then tables
    else
      OrderFits(manifests, receipts, orders, n, draw.at);
      var before := InvalidateFirst(tables, manifests, receipts, orders, n - 1, draw);
      var marked, order := MarkFirst(manifests, receipts, n - 1, draw.at), orders[n - 1];
      EnumeratedAreKeys(order, marked, receipts[n - 1].path);
      InvalidateAll(before, marked, order, draw.now)
  }

  // ---------- the write ----------

  function OwnBatchManifest(manifests: map<string, Manifest>, b: Batch, draw: Draw): Manifest {
    if b.run in manifests then manifests[b.run]
    else Manifest(draw.manifest, b.run, b.session, b.workspace, "sealed", draw.at, draw.at, [])
  }

  function SealedBatch(own: Manifest, b: Batch, receipts: seq<ShellReceipt>, draw: Draw): Manifest {
    own.(state := "sealed", updatedAt := draw.at,
         entries := PlaceAll(own.entries, receipts, b.toolUse, b.invocation, draw.artifacts, draw.at))
  }

  /** The first objection to a batch, in the order of the source. */
  function Objection(s: Archive, shells: map<string, ShellInvocation>, b: Batch, receipts: seq<ShellReceipt>,
      draw: Draw): Option<BatchError>
  {
    if b.invocation !in shells || shells[b.invocation].owner != Owner(b.run, b.session, b.toolUse)
       || shells[b.invocation].input.Absent? then Some(NoSuchProducer)
    else
      match shells[b.invocation].input
      case Malformed => Some(InputMalformed)
      case Undeclared => Some(NothingDeclared)
      case Declared(list, background) =>
        var rejected := CheckReceipts(b.workspace, list, background, receipts);
        var own := OwnBatchManifest(s.manifests, b, draw);
        if rejected.Some? then Some(Rejected(rejected.value))
        else if own.session != b.session || own.workspace != b.workspace then Some(ForeignManifest)
        else None
  }

  ghost function Publish(s: Archive, shells: map<string, ShellInvocation>, b: Batch, receipts: seq<ShellReceipt>,
      draw: Draw, orders: seq<seq<string>>): Result<Published, BatchError>
    requires ArchiveValid(s) && OrdersFit(s.manifests, receipts, orders, |receipts|, draw.at)
  {
    var own := OwnBatchManifest(s.manifests, b, draw);
    if Objection(s, shells, b, receipts, draw).Some? then Err(Objection(s, shells, b, receipts, draw).value)
    else if AllPublished(own.entries, receipts, b.invocation) then Ok(Published(s, false))
    else
      Ok(Published(
        s.(manifests := MarkFirst(s.manifests, receipts, |receipts|, draw.at)[b.run :=
          SealedBatch(own, b, receipts, draw)],
           tables := InvalidateFirst(s.tables, s.manifests, receipts, orders, |receipts|, draw)),
        true))
  }

  // ---------- what marks keep ----------

  /** No entry at the path counts as verified. */
  predicate Unverified(m: Manifest, path: string) { !AffectedAt(m, path) }

  lemma MarkUnverifies(m: Manifest, path: string, at: string)
    ensures Unverified(MarkedAt(m, path, at), path)
  {
    var after := MarkedAt(m, path, at);
    forall i | 0 <= i < |after.entries| && after.entries[i].path == path
      ensures !CountsAsVerified(after, after.entries[i])
    {
      assert after.entries[i] == UnverifyEntry(m.entries[i], AtPath(path), true, at);
    }
  }

  lemma MarkKeepsUnverified(m: Manifest, path: string, other: string, at: string)
    requires Unverified(m, other)
    ensures Unverified(MarkedAt(m, path, at), other)
  {
    var after := MarkedAt(m, path, at);
    forall i | 0 <= i < |after.entries| && after.entries[i].path == other
      ensures !CountsAsVerified(after, after.entries[i])
    {
      assert after.entries[i] == UnverifyEntry(m.entries[i], AtPath(path), true, at);
      assert !CountsAsVerified(m, m.entries[i]);
    }
  }

  lemma {:induction false} MarkedAreUnverified(manifests: map<string, Manifest>, receipts: seq<ShellReceipt>, n: nat,
                                               at: string, run: string, k: nat)
    requires n <= |receipts| && run in manifests && k < n
    ensures Unverified(MarkFirst(manifests, receipts, n, at)[run], receipts[k].path)
  {
    var before := MarkFirst(manifests, receipts, n - 1, at)[run];
    if k == n - 1 {
      if AffectedAt(before, receipts[k].path) { MarkUnverifies(before, receipts[k].path, at); }
    } else {
      MarkedAreUnverified(manifests, receipts, n - 1, at, run, k);
      if AffectedAt(before, receipts[n - 1].path) {
        MarkKeepsUnverified(before, receipts[n - 1].path, receipts[k].path, at);
      }
    }
  }

  /** Marks leave identities, owners and paths alone, and every entry of a file not named. */
  ghost predicate MarkedOnly(a: Manifest, b: Manifest, receipts: seq<ShellReceipt>) {
    && a.id == b.id && a.run == b.run && a.session == b.session && a.workspace == b.workspace
    && |a.entries| == |b.entries|
    && forall i :: 0 <= i < |a.entries| ==>
         && b.entries[i].path == a.entries[i].path
         && (!Names(receipts, a.entries[i].path) ==> b.entries[i] == a.entries[i])
  }

  lemma {:induction false} MarksAreFramed(manifests: map<string, Manifest>, receipts: seq<ShellReceipt>, n: nat,
                                          at: string, run: string)
    requires n <= |receipts| && run in manifests
    ensures MarkedOnly(manifests[run], MarkFirst(manifests, receipts, n, at)[run], receipts)
  {
    if n > 0 {
      MarksAreFramed(manifests, receipts, n - 1, at, run);
      var before, after := MarkFirst(manifests, receipts, n - 1, at)[run], MarkFirst(manifests, receipts, n, at)[run];
      assert Names(receipts, receipts[n - 1].path);
      assert forall i :: 0 <= i < |before.entries| && before.entries[i].path != receipts[n - 1].path ==>
        after.entries[i] == before.entries[i];
    }
  }

  // ---------- what publishing achieves ----------

  predicate AllSealed(entries: seq<Entry>, receipts: seq<ShellReceipt>) {
    forall i :: 0 <= i < |entries| && Names(receipts, entries[i].path) ==> entries[i].state == "sealed"
  }

  /** A placed file is sealed, never verified. */
  lemma {:induction false} PlacedAreSealed(entries: seq<Entry>, receipts: seq<ShellReceipt>, toolUse: string,
                                           invocation: string, artifacts: nat -> string, at: string)
    requires UniquePaths(entries) && DistinctNames(receipts)
    ensures AllSealed(PlaceAll(entries, receipts, toolUse, invocation, artifacts, at), receipts)
    decreases |receipts|
  {
    if receipts != [] {
      var n := |receipts| - 1;
      var before := PlaceAll(entries, receipts[..n], toolUse, invocation, artifacts, at);
      PlacedAreSealed(entries, receipts[..n], toolUse, invocation, artifacts, at);
      PlacedAll(entries, receipts[..n], toolUse, invocation, artifacts, at);
      PlaceKeepsSealed(before, receipts, toolUse, invocation, artifacts(n), at);
    }
  }

  lemma PlaceKeepsSealed(before: seq<Entry>, receipts: seq<ShellReceipt>, toolUse: string, invocation: string,
                         artifact: string, at: string)
    requires receipts != [] && UniquePaths(before) && AllSealed(before, receipts[..|receipts| - 1])
    ensures AllSealed(Place(before, receipts[|receipts| - 1], toolUse, invocation, artifact, at), receipts)
  {
    var n := |receipts| - 1;
    var after := Place(before, receipts[n], toolUse, invocation, artifact, at);
    forall i | 0 <= i < |after| && Names(receipts, after[i].path) ensures after[i].state == "sealed" {
      if i < |before| && after[i] == before[i] && after[i].path != receipts[n].path {
        var k :| 0 <= k < |receipts| && receipts[k].path == after[i].path;
        assert receipts[..n][k].path == after[i].path;
        assert Names(receipts[..n], before[i].path);
      }
    }
  }

  lemma SealedBatchIsUnverified(own: Manifest, b: Batch, receipts: seq<ShellReceipt>, draw: Draw, k: nat)
    requires UniquePaths(own.entries) && DistinctNames(receipts) && k < |receipts|
    ensures Unverified(SealedBatch(own, b, receipts, draw), receipts[k].path)
  {
    PlacedAreSealed(own.entries, receipts, b.toolUse, b.invocation, draw.artifacts, draw.at);
    var after := SealedBatch(own, b, receipts, draw);
    var placed := PlaceAll(own.entries, receipts, b.toolUse, b.invocation, draw.artifacts, draw.at);
    assert after.entries == placed && after.state == "sealed";
    forall i | 0 <= i < |after.entries| && after.entries[i].path == receipts[k].path
      ensures !CountsAsVerified(after, after.entries[i])
    {
      assert Names(receipts, placed[i].path);
      assert placed[i].state == "sealed";
    }
  }

  lemma OwnBatchIsUnique(s: Archive, b: Batch, draw: Draw)
    requires ArchiveValid(s)
    ensures OwnBatchManifest(s.manifests, b, draw).run == b.run
    ensures UniquePaths(OwnBatchManifest(s.manifests, b, draw).entries)
  {
  }

  /** Nothing counts as verified any more at any published path, in any run's manifest. */
  lemma NothingVerifiedAtPublished(s: Archive, shells: map<string, ShellInvocation>, b: Batch,
      receipts: seq<ShellReceipt>, draw: Draw, orders: seq<seq<string>>, run: string, k: nat)
    requires ArchiveValid(s) && OrdersFit(s.manifests, receipts, orders, |receipts|, draw.at) && k < |receipts|
    requires var p := Publish(s, shells, b, receipts, draw, orders);
      p.Ok? && p.value.recorded && run in p.value.archive.manifests
    ensures Unverified(Publish(s, shells, b, receipts, draw, orders).value.archive.manifests[run], receipts[k].path)
  {
    if run == b.run {
      AcceptedAreDistinct(s, shells, b, receipts, draw);
      OwnBatchIsUnique(s, b, draw);
      SealedBatchIsUnverified(OwnBatchManifest(s.manifests, b, draw), b, receipts, draw, k);
    } else {
      MarkedAreUnverified(s.manifests, receipts, |receipts|, draw.at, run, k);
    }
  }

  lemma AcceptedAreDistinct(s: Archive, shells: map<string, ShellInvocation>, b: Batch, receipts: seq<ShellReceipt>,
      draw: Draw)
    requires Objection(s, shells, b, receipts, draw).None?
    ensures DistinctNames(receipts)
  {
    var input := shells[b.invocation].input;
    AcceptedNamesDiffer(b.workspace, input.list, input.background, receipts);
  }

  lemma {:induction false} InvalidateAllKeeps(t: Tables, manifests: map<string, Manifest>, order: seq<string>, now: int,
                                              run: string)
    requires ArtifactInvalidation.Valid(t) && forall i :: 0 <= i < |order| ==> order[i] in manifests
    requires Retracted(t, run)
    ensures Retracted(InvalidateAll(t, manifests, order, now), run)
    decreases |order|
  {
    if order != [] {
      var n := |order| - 1;
      InvalidateAllKeeps(t, manifests, order[..n], now, run);
      RetractedStays(InvalidateAll(t, manifests, order[..n], now), manifests[order[n]].id, order[n], now, run);
    }
  }

  lemma {:induction false} FewerFit(manifests: map<string, Manifest>, receipts: seq<ShellReceipt>,
                                    orders: seq<seq<string>>, m: nat, n: nat, at: string)
    requires m <= n <= |receipts| && OrdersFit(manifests, receipts, orders, n, at)
    ensures OrdersFit(manifests, receipts, orders, m, at)
  {
    if m < n { FewerFit(manifests, receipts, orders, m, n - 1, at); }
  }

  /** A property of the tables that no invalidation takes away. */
  ghost predicate Lasting(lasts: Tables -> bool) {
    forall t, manifests: map<string, Manifest>, order: seq<string>, now ::
      ArtifactInvalidation.Valid(t) && lasts(t) && (forall i :: 0 <= i < |order| ==> order[i] in manifests) ==>
        lasts(InvalidateAll(t, manifests, order, now))
  }

  lemma LastsOneReceipt(tables: Tables, manifests: map<string, Manifest>, receipts: seq<ShellReceipt>,
                        orders: seq<seq<string>>, n: nat, draw: Draw, lasts: Tables -> bool)
    requires ArtifactInvalidation.Valid(tables)
    requires 0 < n <= |receipts|
    requires OrdersFit(manifests, receipts, orders, n, draw.at)
    requires OrdersFit(manifests, receipts, orders, n - 1, draw.at) && Lasting(lasts)
    requires lasts(InvalidateFirst(tables, manifests, receipts, orders, n - 1, draw))
    ensures lasts(InvalidateFirst(tables, manifests, receipts, orders, n, draw))
  {
    OrderFits(manifests, receipts, orders, n, draw.at);
    EnumeratedAreKeys(orders[n - 1], MarkFirst(manifests, receipts, n - 1, draw.at), receipts[n - 1].path);
  }

  lemma {:induction false} LastsUntil(tables: Tables, manifests: map<string, Manifest>, receipts: seq<ShellReceipt>,
                                      orders: seq<seq<string>>, m: nat, n: nat, draw: Draw, lasts: Tables -> bool)
    requires ArtifactInvalidation.Valid(tables) && m <= n <= |receipts|
    requires OrdersFit(manifests, receipts, orders, m, draw.at) && OrdersFit(manifests, receipts, orders, n, draw.at)
    requires Lasting(lasts) && lasts(InvalidateFirst(tables, manifests, receipts, orders, m, draw))
    ensures lasts(InvalidateFirst(tables, manifests, receipts, orders, n, draw))
    decreases n
  {
    if m < n {
      FewerFit(manifests, receipts, orders, n - 1, n, draw.at);
      LastsUntil(tables, manifests, receipts, orders, m, n - 1, draw, lasts);
      LastsOneReceipt(tables, manifests, receipts, orders, n, draw, lasts);
    }
  }

  ghost function RetractedFor(run: string): Tables -> bool { (t: Tables) => Retracted(t, run) }

  lemma RetractedLasts(run: string)
    ensures Lasting(RetractedFor(run))
  {
    forall t, manifests: map<string, Manifest>, order: seq<string>, now |
      ArtifactInvalidation.Valid(t) && RetractedFor(run)(t) && (forall i :: 0 <= i < |order| ==> order[i] in manifests)
      ensures RetractedFor(run)(InvalidateAll(t, manifests, order, now))
    {
      InvalidateAllKeeps(t, manifests, order, now, run);
    }
  }

  lemma RetractedNow(tables: Tables, manifests: map<string, Manifest>, receipts: seq<ShellReceipt>,
                     orders: seq<seq<string>>, k: nat, draw: Draw, run: string)
    requires ArtifactInvalidation.Valid(tables) && k < |receipts|
    requires OrdersFit(manifests, receipts, orders, k + 1, draw.at)
    requires run in manifests && AffectedAt(MarkFirst(manifests, receipts, k, draw.at)[run], receipts[k].path)
    ensures RetractedFor(run)(InvalidateFirst(tables, manifests, receipts, orders, k + 1, draw))
  {
    OrderFits(manifests, receipts, orders, k + 1, draw.at);
    RetractsHere(InvalidateFirst(tables, manifests, receipts, orders, k, draw),
                 MarkFirst(manifests, receipts, k, draw.at), orders[k], receipts[k].path, draw.now, run);
  }

  lemma RetractedThen(tables: Tables, manifests: map<string, Manifest>, receipts: seq<ShellReceipt>,
                      orders: seq<seq<string>>, draw: Draw, k: nat, run: string)
    requires ArtifactInvalidation.Valid(tables) && OrdersFit(manifests, receipts, orders, |receipts|, draw.at)
    requires k < |receipts| && run in manifests
    requires AffectedAt(MarkFirst(manifests, receipts, k, draw.at)[run], receipts[k].path)
    ensures OrdersFit(manifests, receipts, orders, k + 1, draw.at)
    ensures RetractedFor(run)(InvalidateFirst(tables, manifests, receipts, orders, k + 1, draw))
  {
    FewerFit(manifests, receipts, orders, k + 1, |receipts|, draw.at);
    RetractedNow(tables, manifests, receipts, orders, k, draw, run);
  }

  /** Whatever was verified on the strength of an affected manifest is retracted, for every receipt. */
  lemma BatchRetractsAffected(tables: Tables, manifests: map<string, Manifest>, receipts: seq<ShellReceipt>,
                              orders: seq<seq<string>>, draw: Draw, k: nat, run: string)
    requires ArtifactInvalidation.Valid(tables) && OrdersFit(manifests, receipts, orders, |receipts|, draw.at)
    requires k < |receipts| && run in manifests
    requires AffectedAt(MarkFirst(manifests, receipts, k, draw.at)[run], receipts[k].path)
    ensures RetractedFor(run)(InvalidateFirst(tables, manifests, receipts, orders, |receipts|, draw))
  {
    RetractedThen(tables, manifests, receipts, orders, draw, k, run);
    RetractedLasts(run);
    LastsUntil(tables, manifests, receipts, orders, k + 1, |receipts|, draw, RetractedFor(run));
  }

  /** A manifest stays as it is until its turn comes. */
  lemma {:induction false} UntouchedUntilAffected(manifests: map<string, Manifest>, receipts: seq<ShellReceipt>,
                                                  n: nat, at: string, run: string) returns (turn: nat)
    requires n <= |receipts| && run in manifests
    ensures turn <= n && MarkFirst(manifests, receipts, turn, at)[run] == manifests[run]
    ensures turn < n ==> AffectedAt(MarkFirst(manifests, receipts, turn, at)[run], receipts[turn].path)
  {
    if n == 0 {
      turn := 0;
    } else {
      turn := UntouchedUntilAffected(manifests, receipts, n - 1, at, run);
      if turn == n - 1 && !AffectedAt(MarkFirst(manifests, receipts, turn, at)[run], receipts[turn].path) {
        turn := n;
      }
    }
  }

  /** A manifest that held any of the files verified before the batch is among them. */
  lemma BatchRetractsVerified(tables: Tables, manifests: map<string, Manifest>, receipts: seq<ShellReceipt>,
                              orders: seq<seq<string>>, draw: Draw, k: nat, run: string)
    requires ArtifactInvalidation.Valid(tables) && OrdersFit(manifests, receipts, orders, |receipts|, draw.at)
    requires k < |receipts| && run in manifests && AffectedAt(manifests[run], receipts[k].path)
    ensures Retracted(InvalidateFirst(tables, manifests, receipts, orders, |receipts|, draw), run)
  {
    var turn := UntouchedUntilAffected(manifests, receipts, k, draw.at, run);
    BatchRetractsAffected(tables, manifests, receipts, orders, draw, turn, run);
  }

  lemma RetractsHere(before: Tables, marked: map<string, Manifest>, order: seq<string>, path: string, now: int,
      run: string)
    requires ArtifactInvalidation.Valid(before) && Enumerates(order, AffectedRunsAt(marked, path))
    requires run in marked && AffectedAt(marked[run], path)
    ensures (forall i :: 0 <= i < |order| ==> order[i] in marked)
        && Retracted(InvalidateAll(before, marked, order, now), run)
  {
    EnumeratedAreKeys(order, marked, path);
    AffectedAreRetracted(before, marked, order, now, run);
  }

  /** Entries of files not published stay as they were in every manifest, and the archive stays valid. */
  lemma PublishIsFramed(s: Archive, shells: map<string, ShellInvocation>, b: Batch, receipts: seq<ShellReceipt>,
      draw: Draw, orders: seq<seq<string>>, run: string)
    requires ArchiveValid(s) && OrdersFit(s.manifests, receipts, orders, |receipts|, draw.at)
    requires Publish(s, shells, b, receipts, draw, orders).Ok? && run in s.manifests
    ensures var after := Publish(s, shells, b, receipts, draw, orders).value.archive.manifests;
      && run in after && after[run].id == s.manifests[run].id && after[run].run == run
      && |s.manifests[run].entries| <= |after[run].entries| && UniquePaths(after[run].entries)
      && forall i :: 0 <= i < |s.manifests[run].entries| && !Names(receipts, s.manifests[run].entries[i].path) ==>
           after[run].entries[i] == s.manifests[run].entries[i]
  {
    AcceptedAreDistinct(s, shells, b, receipts, draw);
    if run == b.run {
      PlacedAll(s.manifests[run].entries, receipts, b.toolUse, b.invocation, draw.artifacts, draw.at);
    } else {
      MarksAreFramed(s.manifests, receipts, |receipts|, draw.at, run);
      OutlineKeepsPaths(s.manifests[run], MarkFirst(s.manifests, receipts, |receipts|, draw.at)[run], receipts);
    }
  }

  lemma OutlineKeepsPaths(a: Manifest, b: Manifest, receipts: seq<ShellReceipt>)
    requires MarkedOnly(a, b, receipts) && UniquePaths(a.entries)
    ensures UniquePaths(b.entries)
  {
  }

  lemma PublishKeepsValid(s: Archive, shells: map<string, ShellInvocation>, b: Batch, receipts: seq<ShellReceipt>,
      draw: Draw, orders: seq<seq<string>>)
    requires ArchiveValid(s) && OrdersFit(s.manifests, receipts, orders, |receipts|, draw.at)
    requires Publish(s, shells, b, receipts, draw, orders).Ok?
    ensures ArchiveValid(Publish(s, shells, b, receipts, draw, orders).value.archive)
  {
    var after := Publish(s, shells, b, receipts, draw, orders).value.archive;
    AcceptedAreDistinct(s, shells, b, receipts, draw);
    forall r | r in after.manifests ensures after.manifests[r].run == r && UniquePaths(after.manifests[r].entries) {
      if r in s.manifests {
        PublishIsFramed(s, shells, b, receipts, draw, orders, r);
      } else {
        PlacedAll([], receipts, b.toolUse, b.invocation, draw.artifacts, draw.at);
      }
    }
  }

  predicate VerifiedNowhere(m: Manifest, path: string) {
    forall i :: 0 <= i < |m.entries| && m.entries[i].path == path ==>
      m.state != "verified" && m.entries[i].state != "integrity_verified" && m.entries[i].state != "content_verified"
  }

  lemma {:induction false} MarkedFromThenOn(manifests: map<string, Manifest>, receipts: seq<ShellReceipt>, m: nat,
                                            n: nat, at: string, run: string)
    requires m <= n <= |receipts| && run in manifests
    requires MarkFirst(manifests, receipts, m, at)[run].state == "unverified"
    ensures MarkFirst(manifests, receipts, n, at)[run].state == "unverified"
    decreases n
  {
    if m < n { MarkedFromThenOn(manifests, receipts, m, n - 1, at, run); }
  }

  lemma MarkedAtItsTurn(manifests: map<string, Manifest>, receipts: seq<ShellReceipt>, turn: nat, at: string,
                        run: string)
    requires turn < |receipts| && run in manifests
    requires AffectedAt(MarkFirst(manifests, receipts, turn, at)[run], receipts[turn].path)
    ensures MarkFirst(manifests, receipts, |receipts|, at)[run].state == "unverified"
  {
    assert MarkFirst(manifests, receipts, turn + 1, at)[run].state == "unverified";
    MarkedFromThenOn(manifests, receipts, turn + 1, |receipts|, at, run);
  }

  lemma AffectedIsVerified(m: Manifest, path: string)
    ensures AffectedAt(m, path) <==> !VerifiedNowhere(m, path)
  {
  }

  /** A manifest with nothing verified at any published path stays as it is, any other is marked. */
  lemma MarksExactly(manifests: map<string, Manifest>, receipts: seq<ShellReceipt>, at: string, run: string)
    requires run in manifests
    ensures (forall r :: r in receipts ==> VerifiedNowhere(manifests[run], r.path)) ==>
              MarkFirst(manifests, receipts, |receipts|, at)[run] == manifests[run]
    ensures forall r :: r in receipts && !VerifiedNowhere(manifests[run], r.path) ==>
              MarkFirst(manifests, receipts, |receipts|, at)[run].state == "unverified"
  {
    var turn := UntouchedUntilAffected(manifests, receipts, |receipts|, at, run);
    if turn < |receipts| {
      assert receipts[turn] in receipts;
      AffectedIsVerified(manifests[run], receipts[turn].path);
    }
    forall r | r in receipts && !VerifiedNowhere(manifests[run], r.path)
      ensures MarkFirst(manifests, receipts, |receipts|, at)[run].state == "unverified"
    {
      var k :| 0 <= k < |receipts| && receipts[k] == r;
      AffectedIsVerified(manifests[run], r.path);
      var earlier := UntouchedUntilAffected(manifests, receipts, k, at, run);
      MarkedAtItsTurn(manifests, receipts, earlier, at, run);
    }
  }

  /** So a new batch changes exactly the other manifests that held any of its files verified. */
  lemma OthersAreMarkedExactly(s: Archive, shells: map<string, ShellInvocation>, b: Batch, receipts: seq<ShellReceipt>,
                               draw: Draw, orders: seq<seq<string>>, run: string)
    requires ArchiveValid(s) && OrdersFit(s.manifests, receipts, orders, |receipts|, draw.at)
    requires Publish(s, shells, b, receipts, draw, orders).Ok? && run in s.manifests && run != b.run
    requires Publish(s, shells, b, receipts, draw, orders).value.recorded
    ensures var after := Publish(s, shells, b, receipts, draw, orders).value.archive.manifests;
      && run in after
      && ((forall r :: r in receipts ==> VerifiedNowhere(s.manifests[run], r.path)) ==> after[run] == s.manifests[run])
      && (forall r :: r in receipts && !VerifiedNowhere(s.manifests[run], r.path) ==> after[run].state == "unverified")
  {
    MarksExactly(s.manifests, receipts, draw.at, run);
  }

  /** Who may publish what: the shell invocation's own run, session and tool use, exactly what it declared. */
  predicate MayPublish(s: Archive, shells: map<string, ShellInvocation>, b: Batch, receipts: seq<ShellReceipt>) {
    && b.invocation in shells && shells[b.invocation].owner == Owner(b.run, b.session, b.toolUse)
    && shells[b.invocation].input.Declared?
    && (var input := shells[b.invocation].input;
        CheckReceipts(b.workspace, input.list, input.background, receipts).None?)
    && (b.run in s.manifests ==>
          s.manifests[b.run].session == b.session && s.manifests[b.run].workspace == b.workspace)
  }

  /**
   A batch goes through exactly when its sender may publish it. Afterwards every receipt is in the
   run's manifest, and a new batch is an event and leaves the manifest sealed.
   */
  lemma PublishedExactly(s: Archive, shells: map<string, ShellInvocation>, b: Batch, receipts: seq<ShellReceipt>,
                         draw: Draw, orders: seq<seq<string>>)
    requires ArchiveValid(s) && OrdersFit(s.manifests, receipts, orders, |receipts|, draw.at)
    ensures Publish(s, shells, b, receipts, draw, orders).Ok? <==> MayPublish(s, shells, b, receipts)
    ensures Publish(s, shells, b, receipts, draw, orders).Ok? ==>
              var after := Publish(s, shells, b, receipts, draw, orders).value.archive;
              && b.run in after.manifests && AllPublished(after.manifests[b.run].entries, receipts, b.invocation)
              && (forall r :: r in receipts ==> HoldsReceipt(after.manifests[b.run].entries, r, b.invocation))
              && (Publish(s, shells, b, receipts, draw, orders).value.recorded <==>
                    !(b.run in s.manifests && AllPublished(s.manifests[b.run].entries, receipts, b.invocation)))
              && (Publish(s, shells, b, receipts, draw, orders).value.recorded ==>
                    after.manifests[b.run].state == "sealed")
  {
    if MayPublish(s, shells, b, receipts) {
      AcceptedAreDistinct(s, shells, b, receipts, draw);
      OwnBatchIsUnique(s, b, draw);
      var own := OwnBatchManifest(s.manifests, b, draw);
      PlacedAll(own.entries, receipts, b.toolUse, b.invocation, draw.artifacts, draw.at);
      if AllPublished(own.entries, receipts, b.invocation) {
        PublishedNeedsEntries(own.entries, receipts, b.invocation);
      }
      assert b.run !in s.manifests ==> own.entries == [];
      AllHeld(Publish(s, shells, b, receipts, draw, orders).value.archive.manifests[b.run].entries, receipts,
              b.invocation);
    }
  }

  /** The manifest's word for a receipt: the same file, operation, bytes, size and validator, by the same invocation. */
  predicate HoldsReceipt(entries: seq<Entry>, r: ShellReceipt, invocation: string) {
    exists e :: && e in entries && e.path == r.path && e.operation == r.operation && e.sealedHash == r.sealedHash
                && e.producer == Some(invocation) && e.requiredValidator == r.validator
                && (match r.size case None => e.size == None case Some(n) => e.size == Some(n as int))
  }

  lemma AllHeld(entries: seq<Entry>, receipts: seq<ShellReceipt>, invocation: string)
    ensures AllPublished(entries, receipts, invocation) <==>
              forall r :: r in receipts ==> HoldsReceipt(entries, r, invocation)
  {
    if AllPublished(entries, receipts, invocation) {
      forall r | r in receipts ensures HoldsReceipt(entries, r, invocation) {
        var k :| 0 <= k < |receipts| && receipts[k] == r;
        var i :| 0 <= i < |entries| && Reflects(entries[i], receipts[k], invocation);
        assert entries[i] in entries;
      }
    }
    if forall r :: r in receipts ==> HoldsReceipt(entries, r, invocation) {
      forall k | 0 <= k < |receipts|
        ensures exists i :: 0 <= i < |entries| && Reflects(entries[i], receipts[k], invocation)
      {
        assert HoldsReceipt(entries, receipts[k], invocation);
        var e :| && e in entries && e.path == receipts[k].path && e.operation == receipts[k].operation
                 && e.sealedHash == receipts[k].sealedHash && e.producer == Some(invocation)
                 && e.requiredValidator == receipts[k].validator
                 && (match receipts[k].size case None => e.size == None case Some(n) => e.size == Some(n as int));
        var i :| 0 <= i < |entries| && entries[i] == e;
        assert Reflects(entries[i], receipts[k], invocation);
      }
    }
  }

  /** Publishing the same batch again changes nothing and records nothing. */
  lemma RepublishChangesNothing(s: Archive, shells: map<string, ShellInvocation>, b: Batch, receipts: seq<ShellReceipt>,
                                draw: Draw, orders: seq<seq<string>>, again: Draw, later: seq<seq<string>>)
    requires ArchiveValid(s) && OrdersFit(s.manifests, receipts, orders, |receipts|, draw.at)
    requires Publish(s, shells, b, receipts, draw, orders).Ok?
    requires var after := Publish(s, shells, b, receipts, draw, orders).value.archive;
      OrdersFit(after.manifests, receipts, later, |receipts|, again.at)
    ensures var after := Publish(s, shells, b, receipts, draw, orders).value.archive;
      ArchiveValid(after) && Publish(after, shells, b, receipts, again, later) == Ok(Published(after, false))
  {
    var published := Publish(s, shells, b, receipts, draw, orders).value;
    PublishKeepsValid(s, shells, b, receipts, draw, orders);
    AcceptedAreDistinct(s, shells, b, receipts, draw);
    OwnBatchIsUnique(s, b, draw);
    var own := OwnBatchManifest(s.manifests, b, draw);
    if published.recorded {
      PlacedAll(own.entries, receipts, b.toolUse, b.invocation, draw.artifacts, draw.at);
    } else {
      PublishedNeedsEntries(own.entries, receipts, b.invocation);
    }
    AcceptedAgain(s, published.archive, shells, b, receipts, draw, again);
  }

  lemma PublishedNeedsEntries(entries: seq<Entry>, receipts: seq<ShellReceipt>, invocation: string)
    requires receipts != [] && AllPublished(entries, receipts, invocation)
    ensures entries != []
  {
    var k := 0;
    assert 0 <= k < |receipts|;
    var i :| 0 <= i < |entries| && Reflects(entries[i], receipts[k], invocation);
  }

  /** Who may publish does not depend on what was published. */
  lemma AcceptedAgain(s: Archive, after: Archive, shells: map<string, ShellInvocation>, b: Batch,
                      receipts: seq<ShellReceipt>, draw: Draw, again: Draw)
    requires Objection(s, shells, b, receipts, draw).None?
    requires b.run in after.manifests ==>
               var m := after.manifests[b.run]; m.session == b.session && m.workspace == b.workspace
    ensures Objection(after, shells, b, receipts, again).None?
  {
  }

  // ---------- the transaction ----------

  lemma {:induction false} MoreOrdersFit(manifests: map<string, Manifest>, receipts: seq<ShellReceipt>,
                                         orders: seq<seq<string>>, order: seq<string>, n: nat, at: string)
    requires n <= |receipts| && OrdersFit(manifests, receipts, orders, n, at)
    ensures OrdersFit(manifests, receipts, orders + [order], n, at)
  {
    if n > 0 { MoreOrdersFit(manifests, receipts, orders, order, n - 1, at); }
  }

  lemma {:induction false} MoreOrdersSameTables(tables: Tables, manifests: map<string, Manifest>,
                                                receipts: seq<ShellReceipt>, orders: seq<seq<string>>,
                                                order: seq<string>, n: nat, draw: Draw)
    requires ArtifactInvalidation.Valid(tables) && n <= |receipts| && OrdersFit(manifests, receipts, orders, n, draw.at)
    requires OrdersFit(manifests, receipts, orders + [order], n, draw.at)
    ensures InvalidateFirst(tables, manifests, receipts, orders + [order], n, draw) ==
            InvalidateFirst(tables, manifests, receipts, orders, n, draw)
  {
    if n > 0 { MoreOrdersSameTables(tables, manifests, receipts, orders, order, n - 1, draw); }
  }

  /** The rows that hold a verified projection of the path. */
  method RowsAt(manifests: map<string, Manifest>, path: string) returns (order: seq<string>)
    ensures Enumerates(order, AffectedRunsAt(manifests, path))
  {
    order := [];
    var rest := manifests.Keys;
    while rest != {}
      invariant rest <= manifests.Keys
      invariant forall i, j :: 0 <= i < j < |order| ==> order[i] != order[j]
      invariant forall r :: r in order <==> r in manifests && r !in rest && AffectedAt(manifests[r], path)
      decreases |rest|
    {
      var r :| r in rest;
      rest := rest - {r};
      if AffectedAt(manifests[r], path) { order := order + [r]; }
    }
  }

  lemma MarkedRowsAre(before: map<string, Manifest>, after: map<string, Manifest>, path: string, at: string,
                      order: seq<string>)
    requires Enumerates(order, AffectedRunsAt(before, path)) && after.Keys == before.Keys
    requires forall k :: 0 <= k < |order| ==> after[order[k]] == Marked(before[order[k]], AtPath(path), {""}, at)
    requires forall r :: r in after && r !in order ==> after[r] == before[r]
    ensures after == MarkPath(before, path, at)
  {
    forall r | r in after ensures after[r] == MarkPath(before, path, at)[r] {
      assert r in AffectedRunsAt(before, path) <==> AffectedAt(before[r], path);
      if r in order {
        var k :| 0 <= k < |order| && order[k] == r;
      }
    }
  }

  /** One receipt: the rows it affects are invalidated and marked, one after the other. */
  method UnverifyAt(registry: ArtifactRegistry, path: string, draw: Draw) returns (order: seq<string>)
    requires ArtifactInvalidation.Valid(registry.projections.Contents())
    modifies registry`manifests, registry.projections
    ensures Enumerates(order, AffectedRunsAt(old(registry.manifests), path))
    ensures forall i :: 0 <= i < |order| ==> order[i] in old(registry.manifests)
    ensures registry.manifests == MarkPath(old(registry.manifests), path, draw.at)
    ensures registry.projections.Contents() ==
            InvalidateAll(old(registry.projections.Contents()), old(registry.manifests), order, draw.now)
  {
    ghost var before := registry.manifests;
    order := RowsAt(registry.manifests, path);
    EnumeratedAreKeys(order, registry.manifests, path);
    registry.UnverifyRows(AtPath(path), order, Drawn(draw.manifest, "", draw.at, draw.now), {""});
    MarkedRowsAre(before, registry.manifests, path, draw.at, order);
  }

  /** The loop over the receipts, each seeing the marks of those before it. */
  method UnverifyBatch(registry: ArtifactRegistry, receipts: seq<ShellReceipt>, draw: Draw)
    returns (ghost orders: seq<seq<string>>)
    requires ArtifactInvalidation.Valid(registry.projections.Contents())
    modifies registry`manifests, registry.projections
    ensures OrdersFit(old(registry.manifests), receipts, orders, |receipts|, draw.at)
    ensures registry.manifests == MarkFirst(old(registry.manifests), receipts, |receipts|, draw.at)
    ensures registry.projections.Contents() ==
            InvalidateFirst(old(registry.projections.Contents()), old(registry.manifests), receipts, orders,
              |receipts|, draw)
  {
    ghost var start, tables := registry.manifests, registry.projections.Contents();
    orders := [];
    for n := 0 to |receipts|
      invariant |orders| == n && OrdersFit(start, receipts, orders, n, draw.at)
      invariant registry.manifests == MarkFirst(start, receipts, n, draw.at)
      invariant registry.projections.Contents() == InvalidateFirst(tables, start, receipts, orders, n, draw)
    {
      var order := UnverifyAt(registry, receipts[n].path, draw);
      MoreOrdersFit(start, receipts, orders, order, n, draw.at);
      MoreOrdersSameTables(tables, start, receipts, orders, order, n, draw);
      orders := orders + [order];
    }
  }

  /** The orders in which the rows of a batch would be read, should it come to that. */
  lemma SomeOrders(manifests: map<string, Manifest>, receipts: seq<ShellReceipt>, n: nat, at: string)
    returns (orders: seq<seq<string>>)
    requires n <= |receipts|
    ensures |orders| == n && OrdersFit(manifests, receipts, orders, n, at)
  {
    orders := [];
    for i := 0 to n
      invariant |orders| == i && OrdersFit(manifests, receipts, orders, i, at)
    {
      var order := SomeOrder(AffectedRunsAt(MarkFirst(manifests, receipts, i, at), receipts[i].path));
      MoreOrdersFit(manifests, receipts, orders, order, i, at);
      orders := orders + [order];
    }
  }

  lemma SomeOrder(ids: set<string>) returns (order: seq<string>)
    ensures Enumerates(order, ids)
  {
    order := [];
    var rest := ids;
    while rest != {}
      invariant rest <= ids
      invariant forall i, j :: 0 <= i < j < |order| ==> order[i] != order[j]
      invariant forall r :: r in order <==> r in ids && r !in rest
      decreases |rest|
    {
      var r :| r in rest;
      rest := rest - {r};
      order := order + [r];
    }
  }

  method PublishDeclared(registry: ArtifactRegistry, shells: map<string, ShellInvocation>, b: Batch,
                         receipts: seq<ShellReceipt>, draw: Draw)
    returns (result: Result<bool, BatchError>, ghost orders: seq<seq<string>>)
    requires ArchiveValid(registry.View())
    modifies registry`manifests, registry.projections
    ensures OrdersFit(old(registry.manifests), receipts, orders, |receipts|, draw.at)
    ensures match Publish(old(registry.View()), shells, b, receipts, draw, orders)
      case Ok(published) => result == Ok(published.recorded) && registry.View() == published.archive
      case Err(e) => result == Err(e) && registry.View() == old(registry.View())
  {
    orders := SomeOrders(registry.manifests, receipts, |receipts|, draw.at);
    if b.invocation !in shells || shells[b.invocation].owner != Owner(b.run, b.session, b.toolUse)
       || shells[b.invocation].input.Absent? {
      return Err(NoSuchProducer), orders;
    }
    var input := shells[b.invocation].input;
    if input.Malformed? { return Err(InputMalformed), orders; }
    if input.Undeclared? { return Err(NothingDeclared), orders; }
    var rejected := ValidateReceipts(b.workspace, input.list, input.background, receipts);
    if rejected.Some? { return Err(Rejected(rejected.value)), orders; }
    var own := OwnBatchManifest(registry.manifests, b, draw);
    if own.session != b.session || own.workspace != b.workspace { return Err(ForeignManifest), orders; }
    ghost var s := registry.View();
    OwnBatchIsUnique(s, b, draw);
    AcceptedNamesDiffer(b.workspace, input.list, input.background, receipts);
    var entries := PublishReceipts(own.entries, receipts, b.toolUse, b.invocation, draw.artifacts, draw.at);
    if AllPublished(own.entries, receipts, b.invocation) { return Ok(false), orders; }
    orders := UnverifyBatch(registry, receipts, draw);
    registry.manifests := registry.manifests[b.run :=
      own.(state := "sealed", updatedAt := draw.at, entries := entries)];
    return Ok(true), orders;
  }
}
