/**
 Publishing the outputs a shell command declared (crates/zk-db/src/artifact.rs,
 record_declared_shell_artifacts_in_write): receipts are checked against the declarations in
 one pass, and only complete, exact sets of receipts enter the manifest.
 */
module ShellArtifacts {
  import opened Wrappers
  import opened Ascii
  import opened Cardinalities
  import opened ArtifactTerminal
  import opened ArtifactRecords

  const MAX_OUTPUTS: nat := 32
  const MAX_TOTAL_BYTES: nat := 100 * 1024 * 1024
  const MAX_FILE_BYTES: nat := 50 * 1024 * 1024

  /** One declared output of the persisted input; absent fields are None. */
  datatype Declaration = Declaration(path: Option<string>, operation: string, validator: Option<string>)

  datatype ShellReceipt = ShellReceipt(
    requested: string, path: string, operation: string,
    previous: Option<string>, sealedHash: Option<string>, size: Option<nat>, validator: Option<string>)

  datatype ShellError =
    DeclarationMismatch | SizeInvalid | ReceiptPathInvalid | NotDeclared | OperationInvalid | ReceiptInvalid

  // ---------- one receipt ----------

  function NormalOperation(text: string): Option<string> {
    var lower := Lower(text);
    if lower == "create" || lower == "created" then Some("created")
    else if lower == "update" || lower == "modified" then Some("modified")
    else if lower == "delete" || lower == "deleted" then Some("deleted")
    else None
  }

  /** The first declaration of a path. */
  function FindDeclared(ds: seq<Declaration>, path: string): (i: nat)
    ensures i <= |ds|
    ensures i < |ds| ==> ds[i].path == Some(path)
    ensures forall k :: 0 <= k < i ==> ds[k].path != Some(path)
  {
    if ds == [] || ds[0].path == Some(path) then 0 else 1 + FindDeclared(ds[1..], path)
  }

  /** What the declared operation demands of the hashes and the size that were observed. */
  predicate Observed(r: ShellReceipt, operation: string) {
    && (r.previous.Some? ==> IsDigest(r.previous.value))
    && (operation == "created" <==> r.previous.None?)
    && (operation == "deleted" ==> r.sealedHash.None? && r.size.None?)
    && (operation != "deleted" ==>
          r.sealedHash.Some? && IsDigest(r.sealedHash.value) && r.size.Some? && r.size.value <= MAX_FILE_BYTES)
    && (operation == "modified" ==> r.previous != r.sealedHash)
  }

  predicate InsideWorkspace(path: string, workspace: string) {
    && ArtifactRecords.IsAbsolute(workspace) && ArtifactRecords.IsAbsolute(path)
    && Components(workspace) <= Components(path) && Components(path) != Components(workspace)
    && ".." !in Components(path)
  }

  function Total(receipts: seq<ShellReceipt>): nat {
    if receipts == [] then 0
    else
      var n := |receipts| - 1;
      Total(receipts[..n]) + if receipts[n].size.Some? then receipts[n].size.value else 0
  }

  /** The receipts before n name other files, as requested and as found. */
  predicate NamedBefore(receipts: seq<ShellReceipt>, n: nat)
    requires n < |receipts|
  {
    exists k :: 0 <= k < n && (receipts[k].path == receipts[n].path || receipts[k].requested == receipts[n].requested)
  }

  function PathsBefore(receipts: seq<ShellReceipt>, n: nat): (names: set<string>)
    requires n <= |receipts|
    ensures forall x :: x in names <==> exists k :: 0 <= k < n && receipts[k].path == x
  {
    if n == 0 then {} else PathsBefore(receipts, n - 1) + {receipts[n - 1].path}
  }

  function RequestsBefore(receipts: seq<ShellReceipt>, n: nat): (names: set<string>)
    requires n <= |receipts|
    ensures forall x :: x in names <==> exists k :: 0 <= k < n && receipts[k].requested == x
  {
    if n == 0 then {} else RequestsBefore(receipts, n - 1) + {receipts[n - 1].requested}
  }

  lemma NamedIsMembership(receipts: seq<ShellReceipt>, n: nat)
    requires n < |receipts|
    ensures NamedBefore(receipts, n) <==>
              receipts[n].path in PathsBefore(receipts, n) || receipts[n].requested in RequestsBefore(receipts, n)
  {
  }

  /** What the pass reports at receipt n, the receipts before it being fine. */
  function ErrorAt(workspace: string, ds: seq<Declaration>, receipts: seq<ShellReceipt>, n: nat): Option<ShellError>
    requires n < |receipts|
  {
    var r := receipts[n];
    var d := FindDeclared(ds, r.requested);
    if Total(receipts[..n + 1]) > MAX_TOTAL_BYTES then Some(SizeInvalid)
    else if !InsideWorkspace(r.path, workspace) || NamedBefore(receipts, n) then Some(ReceiptPathInvalid)
    else if d == |ds| then Some(NotDeclared)
    else
      match NormalOperation(ds[d].operation)
      case None => Some(ShellError.OperationInvalid)
      case Some(operation) =>
        if operation != r.operation || ds[d].validator != r.validator || !Observed(r, operation) then
          Some(ReceiptInvalid)
        else None
  }

  function FirstError(workspace: string, ds: seq<Declaration>, receipts: seq<ShellReceipt>, n: nat): Option<ShellError>
    requires n <= |receipts|
  {
    if n == 0 then None
    else
      var before := FirstError(workspace, ds, receipts, n - 1);
      if before.Some? then before else ErrorAt(workspace, ds, receipts, n - 1)
  }

  function CheckReceipts(workspace: string, ds: seq<Declaration>, background: bool, receipts: seq<ShellReceipt>):
      Option<ShellError> {
    if receipts == [] || |receipts| > MAX_OUTPUTS || |ds| != |receipts| || background then Some(DeclarationMismatch)
    else FirstError(workspace, ds, receipts, |receipts|)
  }

  lemma {:induction false} NoErrorAnywhere(workspace: string, ds: seq<Declaration>, receipts: seq<ShellReceipt>,
      n: nat, i: nat)
    requires i < n <= |receipts| && FirstError(workspace, ds, receipts, n).None?
    ensures ErrorAt(workspace, ds, receipts, i).None?
    decreases n
  {
    if i < n - 1 { NoErrorAnywhere(workspace, ds, receipts, n - 1, i); }
  }

  lemma {:induction false} ErrorStays(workspace: string, ds: seq<Declaration>, receipts: seq<ShellReceipt>, m: nat,
      n: nat)
    requires m <= n <= |receipts| && FirstError(workspace, ds, receipts, m).Some?
    ensures FirstError(workspace, ds, receipts, n) == FirstError(workspace, ds, receipts, m)
    decreases n
  {
    if m < n { ErrorStays(workspace, ds, receipts, m, n - 1); }
  }

  /** The single pass with its running total and its two sets of names. */
  method ValidateReceipts(workspace: string, ds: seq<Declaration>, background: bool, receipts: seq<ShellReceipt>)
    returns (error: Option<ShellError>)
    ensures error == CheckReceipts(workspace, ds, background, receipts)
  {
    if receipts == [] || |receipts| > MAX_OUTPUTS || |ds| != |receipts| || background {
      return Some(DeclarationMismatch);
    }
    var unique: set<string>, requested: set<string>, total: nat := {}, {}, 0;
    for n := 0 to |receipts|
      invariant FirstError(workspace, ds, receipts, n).None?
      invariant total == Total(receipts[..n])
      invariant unique == PathsBefore(receipts, n) && requested == RequestsBefore(receipts, n)
    {
      NamedIsMembership(receipts, n);
      TotalStep(receipts, n);
      total := total + if receipts[n].size.Some? then receipts[n].size.value else 0;
      var named := receipts[n].path in unique || receipts[n].requested in requested;
      error := CheckReceipt(workspace, ds, receipts, n, total, named);
      if error.Some? {
        ErrorStays(workspace, ds, receipts, n + 1, |receipts|);
        return;
      }
      unique, requested := unique + {receipts[n].path}, requested + {receipts[n].requested};
    }
    return None;
  }

  lemma TotalStep(receipts: seq<ShellReceipt>, n: nat)
    requires n < |receipts|
    ensures Total(receipts[..n + 1]) ==
            Total(receipts[..n]) + if receipts[n].size.Some? then receipts[n].size.value else 0
  {
    assert receipts[..n + 1][..n] == receipts[..n];
  }

  method CheckReceipt(workspace: string, ds: seq<Declaration>, receipts: seq<ShellReceipt>, n: nat, total: nat,
      named: bool)
    returns (error: Option<ShellError>)
    requires n < |receipts| && total == Total(receipts[..n + 1]) && named == NamedBefore(receipts, n)
    requires FirstError(workspace, ds, receipts, n).None?
    ensures error == FirstError(workspace, ds, receipts, n + 1)
  {
    var r := receipts[n];
    if total > MAX_TOTAL_BYTES { return Some(SizeInvalid); }
    if !InsideWorkspace(r.path, workspace) || named { return Some(ReceiptPathInvalid); }
    var d := FindDeclared(ds, r.requested);
    if d == |ds| { return Some(NotDeclared); }
    var operation := NormalOperation(ds[d].operation);
    if operation.None? { return Some(ShellError.OperationInvalid); }
    if operation.value != r.operation || ds[d].validator != r.validator || !Observed(r, operation.value) {
      return Some(ReceiptInvalid);
    }
    return None;
  }

  // ---------- exactly the declared outputs ----------

  predicate DistinctNames(receipts: seq<ShellReceipt>) {
    forall i, j :: 0 <= i < j < |receipts| ==>
      receipts[i].path != receipts[j].path && receipts[i].requested != receipts[j].requested
  }

  lemma AcceptedNamesDiffer(workspace: string, ds: seq<Declaration>, background: bool, receipts: seq<ShellReceipt>)
    requires CheckReceipts(workspace, ds, background, receipts).None?
    ensures DistinctNames(receipts)
    ensures forall i :: 0 <= i < |receipts| ==> FindDeclared(ds, receipts[i].requested) < |ds|
  {
    forall i | 0 <= i < |receipts|
      ensures !NamedBefore(receipts, i) && FindDeclared(ds, receipts[i].requested) < |ds|
    {
      NoErrorAnywhere(workspace, ds, receipts, |receipts|, i);
    }
    forall i, j | 0 <= i < j < |receipts|
      ensures receipts[i].path != receipts[j].path && receipts[i].requested != receipts[j].requested
    {
      assert !NamedBefore(receipts, j);
    }
  }

  function Range(n: nat): (r: set<nat>)
    ensures |r| == n && forall i: nat :: i in r <==> i < n
  {
    if n == 0 then {} else Range(n - 1) + {n - 1}
  }

  /** The declarations that the first n receipts answer. */
  function Answered(ds: seq<Declaration>, receipts: seq<ShellReceipt>, n: nat): set<nat>
    requires n <= |receipts|
  {
    set i | 0 <= i < n :: FindDeclared(ds, receipts[i].requested)
  }

  lemma OneMoreAnswer(ds: seq<Declaration>, receipts: seq<ShellReceipt>, n: nat)
    requires n < |receipts| && DistinctNames(receipts)
    requires forall i :: 0 <= i < |receipts| ==> FindDeclared(ds, receipts[i].requested) < |ds|
    ensures |Answered(ds, receipts, n + 1)| == |Answered(ds, receipts, n)| + 1
  {
    var before, after := Answered(ds, receipts, n), Answered(ds, receipts, n + 1);
    var last := FindDeclared(ds, receipts[n].requested);
    forall i | 0 <= i < n ensures FindDeclared(ds, receipts[i].requested) != last {
      assert ds[last].path == Some(receipts[n].requested) && receipts[i].requested != receipts[n].requested;
    }
    forall x ensures x in after <==> x in before || x == last {
      if x in after {
        var i :| 0 <= i < n + 1 && x == FindDeclared(ds, receipts[i].requested);
        if i < n { assert FindDeclared(ds, receipts[i].requested) in before; }
      }
      assert FindDeclared(ds, receipts[n].requested) in after;
    }
    OneMore(before, after, last);
  }

  lemma OneMore(before: set<nat>, after: set<nat>, x: nat)
    requires x !in before && forall y :: y in after <==> y in before || y == x
    ensures |after| == |before| + 1
  {
    assert after == before + {x};
  }

  lemma {:induction false} AnsweredSize(ds: seq<Declaration>, receipts: seq<ShellReceipt>, n: nat)
    requires n <= |receipts| && DistinctNames(receipts)
    requires forall i :: 0 <= i < |receipts| ==> FindDeclared(ds, receipts[i].requested) < |ds|
    ensures |Answered(ds, receipts, n)| == n
    decreases n
  {
    if n > 0 {
      AnsweredSize(ds, receipts, n - 1);
      OneMoreAnswer(ds, receipts, n - 1);
    }
  }

  predicate IsAnswered(ds: seq<Declaration>, receipts: seq<ShellReceipt>, j: nat) {
    exists i :: 0 <= i < |receipts| && FindDeclared(ds, receipts[i].requested) == j
  }

  /** As many distinct answers as declarations: none is left out. */
  lemma EveryDeclarationAnswered(ds: seq<Declaration>, receipts: seq<ShellReceipt>, j: nat)
    requires |ds| == |receipts| && DistinctNames(receipts) && j < |ds|
    requires forall i :: 0 <= i < |receipts| ==> FindDeclared(ds, receipts[i].requested) < |ds|
    ensures IsAnswered(ds, receipts, j)
  {
    var answered := Answered(ds, receipts, |receipts|);
    AnsweredSize(ds, receipts, |receipts|);
    assert answered <= Range(|ds|);
    SubsetSize(answered, Range(|ds|));
    assert j in answered;
  }

  /** A path declared twice would leave its second declaration without an answer. */
  lemma DeclaredPathsDiffer(ds: seq<Declaration>, receipts: seq<ShellReceipt>, j: nat, k: nat)
    requires j < k < |ds| && IsAnswered(ds, receipts, k)
    ensures ds[j].path != ds[k].path
  {
    var i :| 0 <= i < |receipts| && FindDeclared(ds, receipts[i].requested) == k;
    assert ds[k].path == Some(receipts[i].requested) && ds[j].path != Some(receipts[i].requested);
  }

  lemma AnswersAreExact(ds: seq<Declaration>, receipts: seq<ShellReceipt>)
    requires |ds| == |receipts| && DistinctNames(receipts)
    requires forall i :: 0 <= i < |receipts| ==> FindDeclared(ds, receipts[i].requested) < |ds|
    ensures forall j :: 0 <= j < |ds| ==> exists i :: 0 <= i < |receipts| && ds[j].path == Some(receipts[i].requested)
    ensures forall j, k :: 0 <= j < k < |ds| ==> ds[j].path != ds[k].path
  {
    forall j | 0 <= j < |ds| ensures exists i :: 0 <= i < |receipts| && ds[j].path == Some(receipts[i].requested) {
      EveryDeclarationAnswered(ds, receipts, j);
      var i :| 0 <= i < |receipts| && FindDeclared(ds, receipts[i].requested) == j;
      assert ds[j].path == Some(receipts[i].requested);
    }
    forall j, k | 0 <= j < k < |ds| ensures ds[j].path != ds[k].path {
      EveryDeclarationAnswered(ds, receipts, k);
      DeclaredPathsDiffer(ds, receipts, j, k);
    }
  }

  /**
   Accepted receipts publish exactly the declared outputs: every declaration is answered by a
   receipt, no path is declared twice, all files are distinct and inside the workspace, and the
   whole stays within its budget.
   */
  lemma ExactlyTheDeclared(workspace: string, ds: seq<Declaration>, background: bool, receipts: seq<ShellReceipt>)
    requires CheckReceipts(workspace, ds, background, receipts).None?
    ensures forall j :: 0 <= j < |ds| ==> exists i :: 0 <= i < |receipts| && ds[j].path == Some(receipts[i].requested)
    ensures forall j, k :: 0 <= j < k < |ds| ==> ds[j].path != ds[k].path
    ensures DistinctNames(receipts) && Total(receipts) <= MAX_TOTAL_BYTES
    ensures forall i :: 0 <= i < |receipts| ==> InsideWorkspace(receipts[i].path, workspace)
  {
    AcceptedNamesDiffer(workspace, ds, background, receipts);
    AcceptedFilesFit(workspace, ds, background, receipts);
    AnswersAreExact(ds, receipts);
  }

  lemma AcceptedFilesFit(workspace: string, ds: seq<Declaration>, background: bool, receipts: seq<ShellReceipt>)
    requires CheckReceipts(workspace, ds, background, receipts).None?
    ensures Total(receipts) <= MAX_TOTAL_BYTES
    ensures forall i :: 0 <= i < |receipts| ==> InsideWorkspace(receipts[i].path, workspace)
  {
    forall i | 0 <= i < |receipts| ensures InsideWorkspace(receipts[i].path, workspace) {
      NoErrorAnywhere(workspace, ds, receipts, |receipts|, i);
    }
    NoErrorAnywhere(workspace, ds, receipts, |receipts|, |receipts| - 1);
    assert receipts[..|receipts|] == receipts;
  }

  lemma {:induction false} GoodThroughout(workspace: string, ds: seq<Declaration>, receipts: seq<ShellReceipt>, n: nat)
    requires n <= |receipts| && forall i :: 0 <= i < n ==> ErrorAt(workspace, ds, receipts, i).None?
    ensures FirstError(workspace, ds, receipts, n).None?
  {
    if n > 0 { GoodThroughout(workspace, ds, receipts, n - 1); }
  }

  lemma {:induction false} TotalGrows(receipts: seq<ShellReceipt>, n: nat)
    requires n <= |receipts|
    ensures Total(receipts[..n]) <= Total(receipts)
    decreases |receipts| - n
  {
    if n == |receipts| {
      assert receipts[..n] == receipts;
    } else {
      TotalGrows(receipts, n + 1);
      TotalStep(receipts, n);
    }
  }

  /** One receipt against its declaration: the same operation and validator, and what the operation demands. */
  predicate AnswersDeclaration(r: ShellReceipt, ds: seq<Declaration>) {
    exists d :: 0 <= d < |ds| && ds[d].path == Some(r.requested)
                && (forall k :: 0 <= k < d ==> ds[k].path != Some(r.requested))
                && NormalOperation(ds[d].operation) == Some(r.operation) && ds[d].validator == r.validator
                && Observed(r, r.operation)
  }

  /** Receipts are accepted exactly when there are enough, all different, inside, within budget, and declared. */
  lemma AcceptedExactly(workspace: string, ds: seq<Declaration>, background: bool, receipts: seq<ShellReceipt>)
    ensures CheckReceipts(workspace, ds, background, receipts).None? <==>
              && !background && 1 <= |receipts| <= MAX_OUTPUTS && |ds| == |receipts|
              && DistinctNames(receipts) && Total(receipts) <= MAX_TOTAL_BYTES
              && (forall r :: r in receipts ==> InsideWorkspace(r.path, workspace) && AnswersDeclaration(r, ds))
  {
    if CheckReceipts(workspace, ds, background, receipts).None? {
      AcceptedNamesDiffer(workspace, ds, background, receipts);
      AcceptedFilesFit(workspace, ds, background, receipts);
      forall i | 0 <= i < |receipts| ensures AnswersDeclaration(receipts[i], ds) {
        NoErrorAnywhere(workspace, ds, receipts, |receipts|, i);
        NoErrorAnswers(workspace, ds, receipts, i);
      }
    } else if !background && 1 <= |receipts| <= MAX_OUTPUTS && |ds| == |receipts| && DistinctNames(receipts)
              && Total(receipts) <= MAX_TOTAL_BYTES
              && (forall r :: r in receipts ==> InsideWorkspace(r.path, workspace) && AnswersDeclaration(r, ds)) {
      forall i | 0 <= i < |receipts| ensures ErrorAt(workspace, ds, receipts, i).None? {
        assert receipts[i] in receipts;
        TotalGrows(receipts, i + 1);
        AnswerIsNoError(workspace, ds, receipts, i);
      }
      GoodThroughout(workspace, ds, receipts, |receipts|);
    }
  }

  predicate Sealed(r: ShellReceipt) {
    r.sealedHash.Some? && IsDigest(r.sealedHash.value) && r.size.Some? && r.size.value <= 50 * 1024 * 1024
  }

  predicate WasThere(r: ShellReceipt) { r.previous.Some? && IsDigest(r.previous.value) }

  /** What each operation must have left and found. */
  lemma OperationsDemandExactly(r: ShellReceipt)
    ensures Observed(r, "created") <==> r.previous.None? && Sealed(r)
    ensures Observed(r, "modified") <==> WasThere(r) && Sealed(r) && r.previous != r.sealedHash
    ensures Observed(r, "deleted") <==> WasThere(r) && r.sealedHash.None? && r.size.None?
    ensures forall o :: o in {"created", "modified", "deleted"} ==> NormalOperation(o) == Some(o)
  {
    forall o | o in {"created", "modified", "deleted"} ensures Lower(o) == o { }
    assert "created"[0] == 'c' && "modified"[0] == 'm' && "deleted"[0] == 'd' && "update"[0] == 'u';
    assert |"delete"| == 6;
  }

  /** A declared operation may be written in two ways and in any case, and no other. */
  lemma OperationNamesExactly(text: string)
    ensures NormalOperation(text) == Some("created") <==> Lower(text) in {"create", "created"}
    ensures NormalOperation(text) == Some("modified") <==> Lower(text) in {"update", "modified"}
    ensures NormalOperation(text) == Some("deleted") <==> Lower(text) in {"delete", "deleted"}
    ensures NormalOperation(text).Some? ==> NormalOperation(text).value in {"created", "modified", "deleted"}
  {
    assert "created"[0] == 'c' && "modified"[0] == 'm' && "deleted"[0] == 'd' && "update"[0] == 'u';
    assert "create"[0] == 'c' && "delete"[0] == 'd' && |"delete"| == 6;
  }

  lemma NoErrorAnswers(workspace: string, ds: seq<Declaration>, receipts: seq<ShellReceipt>, i: nat)
    requires i < |receipts| && ErrorAt(workspace, ds, receipts, i).None?
    ensures AnswersDeclaration(receipts[i], ds)
  {
    var d := FindDeclared(ds, receipts[i].requested);
    assert ds[d].path == Some(receipts[i].requested);
  }

  lemma AnswerIsNoError(workspace: string, ds: seq<Declaration>, receipts: seq<ShellReceipt>, i: nat)
    requires i < |receipts| && DistinctNames(receipts) && Total(receipts[..i + 1]) <= MAX_TOTAL_BYTES
    requires InsideWorkspace(receipts[i].path, workspace) && AnswersDeclaration(receipts[i], ds)
    ensures ErrorAt(workspace, ds, receipts, i).None?
  {
    var r := receipts[i];
    var d :| 0 <= d < |ds| && ds[d].path == Some(r.requested)
             && (forall k :: 0 <= k < d ==> ds[k].path != Some(r.requested))
             && NormalOperation(ds[d].operation) == Some(r.operation) && ds[d].validator == r.validator
             && Observed(r, r.operation);
    assert FindDeclared(ds, r.requested) == d;
    assert !NamedBefore(receipts, i);
  }

  // ---------- the manifest ----------

  predicate Reflects(e: Entry, r: ShellReceipt, invocation: string) {
    && e.path == r.path && e.producer == Some(invocation) && e.operation == r.operation
    && e.sealedHash == r.sealedHash && e.requiredValidator == r.validator
    && e.size == (if r.size.None? then None else Some(r.size.value as int))
  }

  /** Everything published already: the retry that changes nothing. */
  predicate AllPublished(entries: seq<Entry>, receipts: seq<ShellReceipt>, invocation: string) {
    forall k :: 0 <= k < |receipts| ==> exists i :: 0 <= i < |entries| && Reflects(entries[i], receipts[k], invocation)
  }

  function NewEntry(r: ShellReceipt, toolUse: string, invocation: string, artifact: string, createdAt: string,
      at: string): Entry {
    Entry(artifact, toolUse, Some(invocation), r.path, r.operation, "sealed", r.sealedHash, None,
          if r.size.None? then None else Some(r.size.value as int), r.validator, None, None, createdAt, at)
  }

  /** Replaced in place on the same path, keeping identity and age, or appended. */
  function Place(entries: seq<Entry>, r: ShellReceipt, toolUse: string, invocation: string, artifact: string,
      at: string): seq<Entry> {
    var i := IndexOf(entries, r.path);
    if i == |entries| then entries + [NewEntry(r, toolUse, invocation, artifact, at, at)]
    else entries[i := NewEntry(r, toolUse, invocation, entries[i].artifactId, entries[i].createdAt, at)]
  }

  function PlaceAll(entries: seq<Entry>, receipts: seq<ShellReceipt>, toolUse: string, invocation: string,
                    artifacts: nat -> string, at: string): seq<Entry>
  {
    if receipts == [] then entries
    else
      var n := |receipts| - 1;
      Place(PlaceAll(entries, receipts[..n], toolUse, invocation, artifacts, at),
            receipts[n], toolUse, invocation, artifacts(n), at)
  }

  predicate Names(receipts: seq<ShellReceipt>, path: string) {
    exists k :: 0 <= k < |receipts| && receipts[k].path == path
  }

  /** Identities and places stay, and so does every entry of a file not named. */
  ghost predicate KeepsOthers(a: seq<Entry>, b: seq<Entry>, receipts: seq<ShellReceipt>) {
    && |a| <= |b|
    && forall i :: 0 <= i < |a| ==>
         && b[i].artifactId == a[i].artifactId && b[i].path == a[i].path
         && (!Names(receipts, a[i].path) ==> b[i] == a[i])
  }

  lemma PlaceIsFramed(entries: seq<Entry>, r: ShellReceipt, toolUse: string, invocation: string, artifact: string,
      at: string)
    requires UniquePaths(entries)
    ensures var after := Place(entries, r, toolUse, invocation, artifact, at);
      && UniquePaths(after) && KeepsOthers(entries, after, [r])
      && exists i :: 0 <= i < |after| && Reflects(after[i], r, invocation)
  {
    var after, i := Place(entries, r, toolUse, invocation, artifact, at), IndexOf(entries, r.path);
    assert Reflects(after[i], r, invocation);
    assert Names([r], r.path) by { assert [r][0].path == r.path; }
  }

  lemma KeepingComposes(a: seq<Entry>, b: seq<Entry>, c: seq<Entry>, receipts: seq<ShellReceipt>)
    requires receipts != []
    requires KeepsOthers(a, b, receipts[..|receipts| - 1])
    requires KeepsOthers(b, c, [receipts[|receipts| - 1]])
    ensures KeepsOthers(a, c, receipts)
  {
    var n := |receipts| - 1;
    forall i | 0 <= i < |a| && !Names(receipts, a[i].path) ensures c[i] == a[i] {
      assert forall k :: 0 <= k < n ==> receipts[..n][k] == receipts[k];
      assert !Names(receipts[..n], a[i].path);
      assert !Names([receipts[n]], a[i].path);
    }
  }

  /**
   Accepted receipts are all in the manifest afterwards, entries of other files are untouched,
   and every replaced entry keeps its identity.
   */
  lemma {:induction false} PlacedAll(entries: seq<Entry>, receipts: seq<ShellReceipt>, toolUse: string,
      invocation: string, artifacts: nat -> string, at: string)
    requires UniquePaths(entries) && DistinctNames(receipts)
    ensures var after := PlaceAll(entries, receipts, toolUse, invocation, artifacts, at);
      UniquePaths(after) && AllPublished(after, receipts, invocation) && KeepsOthers(entries, after, receipts)
    decreases |receipts|
  {
    if receipts != [] {
      var n := |receipts| - 1;
      var before := PlaceAll(entries, receipts[..n], toolUse, invocation, artifacts, at);
      PlacedAll(entries, receipts[..n], toolUse, invocation, artifacts, at);
      PlaceIsFramed(before, receipts[n], toolUse, invocation, artifacts(n), at);
      PublishedStays(before, receipts, toolUse, invocation, artifacts(n), at);
      KeepingComposes(entries, before, PlaceAll(entries, receipts, toolUse, invocation, artifacts, at), receipts);
    }
  }

  lemma PublishedStays(before: seq<Entry>, receipts: seq<ShellReceipt>, toolUse: string, invocation: string,
      artifact: string, at: string)
    requires receipts != [] && UniquePaths(before) && DistinctNames(receipts)
    requires AllPublished(before, receipts[..|receipts| - 1], invocation)
    ensures AllPublished(Place(before, receipts[|receipts| - 1], toolUse, invocation, artifact, at),
                         receipts, invocation)
  {
    var n := |receipts| - 1;
    var after := Place(before, receipts[n], toolUse, invocation, artifact, at);
    PlaceIsFramed(before, receipts[n], toolUse, invocation, artifact, at);
    forall k | 0 <= k < |receipts| ensures exists i :: 0 <= i < |after| && Reflects(after[i], receipts[k], invocation) {
      if k < n {
        assert receipts[..n][k] == receipts[k];
        var i :| 0 <= i < |before| && Reflects(before[i], receipts[k], invocation);
        assert !Names([receipts[n]], before[i].path);
        assert after[i] == before[i];
      }
    }
  }

  method PlaceReceipt(entries: seq<Entry>, r: ShellReceipt, toolUse: string, invocation: string, artifact: string,
      at: string)
    returns (after: seq<Entry>)
    ensures after == Place(entries, r, toolUse, invocation, artifact, at)
  {
    var place := IndexOf(entries, r.path);
    if place < |entries| {
      var was := entries[place];
      return entries[place := NewEntry(r, toolUse, invocation, was.artifactId, was.createdAt, at)];
    }
    return entries + [NewEntry(r, toolUse, invocation, artifact, at, at)];
  }

  /** The loop over the accepted receipts. */
  method PublishReceipts(entries: seq<Entry>, receipts: seq<ShellReceipt>, toolUse: string, invocation: string,
                         artifacts: nat -> string, at: string) returns (after: seq<Entry>)
    requires UniquePaths(entries) && DistinctNames(receipts)
    ensures after == if AllPublished(entries, receipts, invocation) then entries
                     else PlaceAll(entries, receipts, toolUse, invocation, artifacts, at)
    ensures AllPublished(after, receipts, invocation) && UniquePaths(after)
  {
    PlacedAll(entries, receipts, toolUse, invocation, artifacts, at);
    if AllPublished(entries, receipts, invocation) { return entries; }
    after := entries;
    for k := 0 to |receipts|
      invariant after == PlaceAll(entries, receipts[..k], toolUse, invocation, artifacts, at)
    {
      assert receipts[..k + 1][..k] == receipts[..k];
      after := PlaceReceipt(after, receipts[k], toolUse, invocation, artifacts(k), at);
    }
    assert receipts[..|receipts|] == receipts;
  }
}
