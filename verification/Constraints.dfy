/**
 The closed algebra of grant constraints (crates/zk-authz/src/constraint.rs) and its
 persisted form (crates/zk-authz/src/grants.rs).
 */
module Constraints {
  import opened Wrappers
  import opened AuthzModel
  import opened Ordering
  import opened Segments

  const NUL := '\U{0000}'
  const SLASH := '/'
  const BACKSLASH := '\\'

  // ---------- relative paths ----------

  /** The Unicode White_Space characters, which trimming removes. */
  predicate IsWhitespace(c: char) {
    var n := c as int;
    || 0x9 <= n <= 0xD || n == 0x20 || n == 0x85 || n == 0xA0 || n == 0x1680
    || 0x2000 <= n <= 0x200A || n == 0x2028 || n == 0x2029 || n == 0x202F || n == 0x205F || n == 0x3000
  }

  predicate Blank(s: string) { forall i :: 0 <= i < |s| ==> IsWhitespace(s[i]) }

  predicate ProperSegment(s: string) { !Blank(s) && s != "." && s != ".." }

  /** A relative path: the workspace root, or proper segments without NUL or backslash. */
  predicate Relative(value: string) {
    || value == "."
    || (&& Free(value, NUL) && Free(value, BACKSLASH)
        && forall i :: 0 <= i < |Split(value, SLASH)| ==> ProperSegment(Split(value, SLASH)[i]))
  }

  datatype ConstraintError = InvalidPrefix(value: string) | EmptyPrefixes | OperationMismatch

  predicate HasDoubleSlash(s: string) {
    exists i :: 0 < i < |s| && s[i - 1] == SLASH && s[i] == SLASH
  }

  lemma BlankValueHasBlankSegment(value: string)
    requires Blank(value)
    ensures Split(value, SLASH) == [value]
  {
    assert Free(value, SLASH);
    SplitFree(value, SLASH);
  }

  lemma SlashCutsAt(value: string, i: nat)
    requires i < |value| && value[i] == SLASH
    ensures Split(value, SLASH) == Split(value[..i], SLASH) + Split(value[i + 1..], SLASH)
  {
    assert value == value[..i] + [SLASH] + value[i + 1..];
    SplitConcat(value[..i], value[i + 1..], SLASH);
  }

  /** The shape checks before the segment loop reject nothing the segment rule accepts. */
  lemma EarlyChecksAreSegmentChecks(value: string)
    requires value != [] && (value[0] == SLASH || value[|value| - 1] == SLASH || HasDoubleSlash(value))
    ensures exists i :: 0 <= i < |Split(value, SLASH)| && !ProperSegment(Split(value, SLASH)[i])
  {
    var r := Split(value, SLASH);
    assert Blank("");
    if value[0] == SLASH {
      SlashCutsAt(value, 0);
      assert value[..0] == "";
      assert r[0] == "";
    } else if value[|value| - 1] == SLASH {
      var n := |value| - 1;
      SlashCutsAt(value, n);
      assert value[n + 1..] == "";
      assert Split(value[n + 1..], SLASH) == [""];
      assert r[|r| - 1] == "";
    } else {
      var i :| 0 < i < |value| && value[i - 1] == SLASH && value[i] == SLASH;
      SlashCutsAt(value, i - 1);
      var tail := value[i..];
      SlashCutsAt(tail, 0);
      assert tail[..0] == "";
      assert r[|Split(value[..i - 1], SLASH)|] == "";
    }
  }

  /** Validates segment by segment; the accepted text is returned unchanged. */
  method NormalizeRelativePath(value: string) returns (r: Result<string, ConstraintError>)
    ensures r == if Relative(value) then Ok(value) else Err(InvalidPrefix(value))
  {
    if Blank(value) || !Free(value, NUL) || !Free(value, BACKSLASH) {
      if Blank(value) {
        BlankValueHasBlankSegment(value);
        assert !ProperSegment(Split(value, SLASH)[0]);
        assert value != "." by { assert !IsWhitespace("."[0]); }
      }
      return Err(InvalidPrefix(value));
    }
    if value == "." {
      return Ok(value);
    }
    if value[0] == SLASH || value[|value| - 1] == SLASH || HasDoubleSlash(value) {
      EarlyChecksAreSegmentChecks(value);
      return Err(InvalidPrefix(value));
    }
    var segments := Split(value, SLASH);
    for i := 0 to |segments|
      invariant forall j :: 0 <= j < i ==> ProperSegment(segments[j])
    {
      if Blank(segments[i]) || segments[i] == "." || segments[i] == ".." {
        return Err(InvalidPrefix(value));
      }
    }
    return Ok(value);
  }

  /** The segment list that a relative path stands for; the workspace root has none. */
  function SegmentsOf(path: string): seq<string> {
    if path == "." then [] else Split(path, SLASH)
  }

  predicate SegmentContains(prefix: string, candidate: string) {
    prefix == "." || prefix == candidate || prefix + "/" <= candidate
  }

  lemma SegmentsOfInjective(p: string, q: string)
    requires SegmentsOf(p) == SegmentsOf(q)
    ensures p == q
  {
    JoinSplit(p, SLASH);
    JoinSplit(q, SLASH);
  }

  /** String-level containment of relative paths is list prefix on their segments. */
  lemma ContainmentIsSegmentPrefix(p: string, q: string)
    requires Relative(p) && Relative(q)
    ensures SegmentContains(p, q) <==> SegmentsOf(p) <= SegmentsOf(q)
  {
    if p != "." {
      assert [SLASH] == "/";
      SplitPrefix(p, q, SLASH);
      assert ProperSegment(Split(p, SLASH)[0]);
      SplitFree(".", SLASH);
    }
  }

  /** So containment is a partial order, and a name never contains a longer name. */
  lemma ContainmentIsPartialOrder(p: string, q: string, r: string)
    requires Relative(p) && Relative(q) && Relative(r)
    ensures SegmentContains(p, p)
    ensures SegmentContains(p, q) && SegmentContains(q, p) ==> p == q
    ensures SegmentContains(p, q) && SegmentContains(q, r) ==> SegmentContains(p, r)
  {
    ContainmentIsSegmentPrefix(p, q);
    ContainmentIsSegmentPrefix(q, p);
    ContainmentIsSegmentPrefix(q, r);
    ContainmentIsSegmentPrefix(p, r);
    if SegmentsOf(p) == SegmentsOf(q) { SegmentsOfInjective(p, q); }
  }

  // ---------- the constraint algebra ----------

  datatype GrantConstraint =
    | Exact(operationHash: string)
    | ToolWide
    | WorkspaceRead(prefixes: seq<string>, operations: seq<TypedFileOperation>)
    | WorkspaceEdit(prefixes: seq<string>, operations: seq<TypedFileOperation>)

  predicate ReadOperation(op: TypedFileOperation) { op == ReadFile || op == ListDirectory }

  predicate AllRelative(values: seq<string>) { forall i :: 0 <= i < |values| ==> Relative(values[i]) }

  function FirstInvalid(values: seq<string>): string
    requires !AllRelative(values)
  {
    if !Relative(values[0]) then values[0] else FirstInvalid(values[1..])
  }

  /** The canonical prefix set, or why there is none. */
  function NormalizedPrefixes(values: seq<string>): Result<seq<string>, ConstraintError> {
    if !AllRelative(values) then Err(InvalidPrefix(FirstInvalid(values)))
    else if values == [] then Err(EmptyPrefixes)
    else Ok(Canonical(TextLess, values))
  }

  lemma {:induction false} FirstInvalidAt(values: seq<string>, i: nat)
    requires i < |values| && AllRelative(values[..i]) && !Relative(values[i])
    ensures !AllRelative(values) && FirstInvalid(values) == values[i]
  {
    if i > 0 {
      assert Relative(values[..i][0]);
      assert values[1..][..i - 1] == values[..i][1..];
      FirstInvalidAt(values[1..], i - 1);
    }
  }

  method Normalized(values: seq<string>) returns (r: Result<seq<string>, ConstraintError>)
    ensures r == NormalizedPrefixes(values)
  {
    var out: seq<string> := [];
    for i := 0 to |values|
      invariant AllRelative(values[..i]) && SameElements(out, values[..i])
      invariant i > 0 ==> out != []
    {
      assert values[..i + 1] == values[..i] + [values[i]];
      var prefix := NormalizeRelativePath(values[i]);
      if prefix.Err? {
        FirstInvalidAt(values, i);
        return Err(prefix.error);
      }
      if prefix.value !in out {
        out := out + [prefix.value];
      }
    }
    assert values[..|values|] == values;
    if out == [] {
      return Err(EmptyPrefixes);
    }
    TextStrictTotal();
    out := Canonicalize(TextLess, out);
    CanonicalIsSortedSet(TextLess, values);
    SortedSetIsUnique(TextLess, out, Canonical(TextLess, values));
    return Ok(out);
  }

  function NewWorkspaceRead(prefixes: seq<string>, operations: seq<TypedFileOperation>):
      Result<GrantConstraint, ConstraintError>
  {
    if exists i :: 0 <= i < |operations| && !ReadOperation(operations[i]) then Err(OperationMismatch)
    else match NormalizedPrefixes(prefixes)
      case Err(e) => Err(e)
      case Ok(p) => Ok(WorkspaceRead(p, operations))
  }

  function NewWorkspaceEdit(prefixes: seq<string>, operations: seq<TypedFileOperation>):
      Result<GrantConstraint, ConstraintError>
  {
    if exists i :: 0 <= i < |operations| && ReadOperation(operations[i]) then Err(OperationMismatch)
    else match NormalizedPrefixes(prefixes)
      case Err(e) => Err(e)
      case Ok(p) => Ok(WorkspaceEdit(p, operations))
  }

  /** What every constraint built by its constructors satisfies. */
  predicate WellFormed(c: GrantConstraint) {
    match c
    case Exact(_) => true
    case ToolWide => true
    case WorkspaceRead(p, ops) =>
      p != [] && AllRelative(p) && StrictlySorted(TextLess, p)
      && forall i :: 0 <= i < |ops| ==> ReadOperation(ops[i])
    case WorkspaceEdit(p, ops) =>
      p != [] && AllRelative(p) && StrictlySorted(TextLess, p)
      && forall i :: 0 <= i < |ops| ==> !ReadOperation(ops[i])
  }

  lemma NormalizedPrefixesAreCanonical(values: seq<string>)
    ensures NormalizedPrefixes(values).Ok? <==> values != [] && AllRelative(values)
    ensures NormalizedPrefixes(values).Ok? ==>
              var p := NormalizedPrefixes(values).value;
              p != [] && AllRelative(p) && StrictlySorted(TextLess, p) && SameElements(p, values)
    ensures NormalizedPrefixes(values) == Ok(values) <==>
              values != [] && AllRelative(values) && StrictlySorted(TextLess, values)
  {
    TextStrictTotal();
    CanonicalIsSortedSet(TextLess, values);
    CanonicalFixpoint(TextLess, values);
    assert values != [] ==> values[0] in values;
    if NormalizedPrefixes(values).Ok? {
      var p := NormalizedPrefixes(values).value;
      forall i | 0 <= i < |p| ensures Relative(p[i]) { assert p[i] in values; }
    }
  }

  // ---------- matching ----------

  predicate MatchesFile(prefixes: seq<string>, allowed: seq<TypedFileOperation>, op: OperationDescriptor) {
    && op.action.FileAction?
    && op.action.operation in allowed
    && op.resources != []
    && forall i :: 0 <= i < |op.resources| ==>
         && !op.resources[i].outsideWorkspace
         && op.resources[i].kind == PATH_KIND
         && exists j :: 0 <= j < |prefixes| && SegmentContains(prefixes[j], op.resources[i].value)
  }

  /** A file constraint matches exactly the allowed operations on in-workspace paths below one of its directories. */
  lemma MatchesFileExactly(prefixes: seq<string>, allowed: seq<TypedFileOperation>, op: OperationDescriptor)
    requires AllRelative(prefixes) && forall r :: r in op.resources ==> Relative(r.value)
    ensures MatchesFile(prefixes, allowed, op) <==>
              && op.action.FileAction? && op.action.operation in allowed && op.resources != []
              && forall r :: r in op.resources ==>
                   && !r.outsideWorkspace && r.kind == PATH_KIND
                   && exists p :: p in prefixes && SegmentsOf(p) <= SegmentsOf(r.value)
  {
    forall r | r in op.resources
      ensures (exists p :: p in prefixes && SegmentsOf(p) <= SegmentsOf(r.value)) <==>
                exists j :: 0 <= j < |prefixes| && SegmentContains(prefixes[j], r.value)
    {
      forall j | 0 <= j < |prefixes|
        ensures SegmentContains(prefixes[j], r.value) <==> SegmentsOf(prefixes[j]) <= SegmentsOf(r.value)
      {
        ContainmentIsSegmentPrefix(prefixes[j], r.value);
      }
    }
    assert forall i :: 0 <= i < |op.resources| ==> op.resources[i] in op.resources;
  }

  predicate Matches(c: GrantConstraint, op: OperationDescriptor) {
    match c
    case Exact(hash) => hash == op.operationHash
    case ToolWide => true
    case WorkspaceRead(p, ops) => MatchesFile(p, ops, op)
    case WorkspaceEdit(p, ops) => MatchesFile(p, ops, op)
  }

  // ---------- capabilities derived from an operation ----------

  /** The index of the last separator before n, or -1. */
  function LastSlash(s: string, n: nat): (r: int)
    requires n <= |s|
    ensures -1 <= r < n
    ensures r >= 0 ==> s[r] == SLASH
    ensures forall j :: r < j < n ==> s[j] != SLASH
  {
    if n == 0 then -1 else if s[n - 1] == SLASH then n - 1 else LastSlash(s, n - 1)
  }

  /** The directory boundary of one path: a listing keeps what was listed, a file takes its parent. */
  function DirectoryOf(path: string, operation: TypedFileOperation): Option<string> {
    if !Relative(path) then None
    else if path == "." then if operation == ListDirectory then Some(".") else None
    else if operation == ListDirectory then Some(path)
    else var slash := LastSlash(path, |path|); if slash < 0 then Some(".") else Some(path[..slash])
  }

  /** The boundary is a relative path, contains the path, and drops at most the file name. */
  lemma DirectoryIsParent(path: string, operation: TypedFileOperation)
    requires DirectoryOf(path, operation).Some?
    ensures var d := DirectoryOf(path, operation).value;
      && Relative(d) && SegmentContains(d, path)
      && (SegmentsOf(d) == if operation == ListDirectory then SegmentsOf(path)
                           else SegmentsOf(path)[..|SegmentsOf(path)| - 1])
  {
    if path != "." && operation != ListDirectory {
      var slash := LastSlash(path, |path|);
      if slash < 0 {
        SplitFree(path, SLASH);
      } else {
        SlashCutsAt(path, slash);
        var d, name := path[..slash], path[slash + 1..];
        SplitFree(name, SLASH);
        var sd, sp := Split(d, SLASH), Split(path, SLASH);
        assert sp == sd + [name];
        assert sd == sp[..|sp| - 1];
        forall i | 0 <= i < |sd| ensures ProperSegment(sd[i]) { assert sp[i] == sd[i]; }
        assert ProperSegment(sd[0]);
        SplitFree(".", SLASH);
        assert d + "/" <= path;
      }
    }
  }

  function DirectoriesOf(resources: seq<ResourceRef>, operation: TypedFileOperation): Option<seq<string>> {
    if resources == [] then Some([])
    else match DirectoryOf(resources[0].value, operation)
      case None => None
      case Some(d) => match DirectoriesOf(resources[1..], operation)
        case None => None
        case Some(rest) => Some([d] + rest)
  }

  predicate AnyOutside(resources: seq<ResourceRef>) {
    exists i :: 0 <= i < |resources| && resources[i].outsideWorkspace
  }

  /** The directory capability an in-workspace file operation may be remembered as. */
  function CapabilityConstraint(op: OperationDescriptor): Option<GrantConstraint> {
    if op.resources == [] || AnyOutside(op.resources) || !op.action.FileAction? then None
    else
      var operation := op.action.operation;
      match DirectoriesOf(op.resources, operation)
      case None => None
      case Some(directories) =>
        var built := if WriteResource in op.effects
                     then NewWorkspaceEdit(Canonical(TextLess, directories), [operation])
                     else NewWorkspaceRead(Canonical(TextLess, directories), [operation]);
        if built.Ok? then Some(built.value) else None
  }

  lemma {:induction false} DirectoriesCover(resources: seq<ResourceRef>, operation: TypedFileOperation)
    requires DirectoriesOf(resources, operation).Some?
    ensures var ds := DirectoriesOf(resources, operation).value;
      |ds| == |resources| && forall i :: 0 <= i < |ds| ==> Relative(ds[i]) && SegmentContains(ds[i], resources[i].value)
  {
    if resources != [] {
      DirectoryIsParent(resources[0].value, operation);
      DirectoriesCover(resources[1..], operation);
    }
  }

  /** A capability is well formed and covers the very operation it was derived from. */
  lemma CapabilityCoversItsOperation(op: OperationDescriptor)
    requires CapabilityConstraint(op).Some?
    ensures var c := CapabilityConstraint(op).value;
      && WellFormed(c)
      && (c.WorkspaceEdit? || c.WorkspaceRead?)
      && (c.WorkspaceEdit? <==> WriteResource in op.effects)
      && ((forall i :: 0 <= i < |op.resources| ==> op.resources[i].kind == PATH_KIND) ==> Matches(c, op))
  {
    var operation := op.action.operation;
    DirectoriesCover(op.resources, operation);
    var ds := DirectoriesOf(op.resources, operation).value;
    TextStrictTotal();
    CanonicalIsSortedSet(TextLess, ds);
    var canonical := Canonical(TextLess, ds);
    NormalizedPrefixesAreCanonical(canonical);
    var c := CapabilityConstraint(op).value;
    assert c.prefixes == canonical by { CanonicalFixpoint(TextLess, canonical); }
    forall i | 0 <= i < |op.resources|
      ensures exists j :: 0 <= j < |canonical| && SegmentContains(canonical[j], op.resources[i].value)
    {
      assert ds[i] in canonical;
      var j :| 0 <= j < |canonical| && canonical[j] == ds[i];
      assert SegmentContains(canonical[j], op.resources[i].value);
    }
    assert operation in [operation];
  }

  /** Every named directory exists: each path is relative, and a file is not the root itself. */
  predicate HasDirectory(r: ResourceRef, operation: TypedFileOperation) {
    Relative(r.value) && (r.value != "." || operation == ListDirectory)
  }

  lemma {:induction false} DirectoriesExactly(resources: seq<ResourceRef>, operation: TypedFileOperation)
    ensures DirectoriesOf(resources, operation).Some? <==>
              forall i :: 0 <= i < |resources| ==> HasDirectory(resources[i], operation)
  {
    if resources != [] {
      DirectoriesExactly(resources[1..], operation);
      assert DirectoryOf(resources[0].value, operation).Some? <==> HasDirectory(resources[0], operation);
      assert forall i :: 0 < i < |resources| ==> resources[i] == resources[1..][i - 1];
      if forall i :: 0 <= i < |resources| ==> HasDirectory(resources[i], operation) {
        forall i | 0 <= i < |resources[1..]| ensures HasDirectory(resources[1..][i], operation) {
          assert resources[1..][i] == resources[i + 1];
        }
      }
    }
  }

  /** Which file operations can be remembered as a directory capability, and as which kind. */
  lemma CapabilityExactly(op: OperationDescriptor)
    ensures CapabilityConstraint(op).Some? <==>
              && op.action.FileAction? && op.resources != []
              && (forall r :: r in op.resources ==> !r.outsideWorkspace && HasDirectory(r, op.action.operation))
              && (ReadOperation(op.action.operation) <==> WriteResource !in op.effects)
  {
    if op.action.FileAction? && op.resources != [] && !AnyOutside(op.resources) {
      var operation := op.action.operation;
      DirectoriesExactly(op.resources, operation);
      if DirectoriesOf(op.resources, operation).Some? {
        DirectoriesCover(op.resources, operation);
        var ds := DirectoriesOf(op.resources, operation).value;
        TextStrictTotal();
        CanonicalIsSortedSet(TextLess, ds);
        NormalizedPrefixesAreCanonical(Canonical(TextLess, ds));
        assert ds[0] in Canonical(TextLess, ds);
        forall x | x in Canonical(TextLess, ds) ensures Relative(x) { assert x in ds; }
        assert [operation][0] == operation;
      }
    }
  }

  // ---------- persisted form ----------

  /** Structured JSON; the printed text is assumed to parse back to the same value. */
  datatype Json = JNull | JBool(b: bool) | JNumber(n: int) | JString(s: string)
                | JArray(items: seq<Json>) | JObject(fields: map<string, Json>)

  function OperationText(op: TypedFileOperation): string {
    match op
    case ReadFile => "READ_FILE"
    case ListDirectory => "LIST_DIRECTORY"
    case CreateFile => "CREATE_FILE"
    case PatchFile => "PATCH_FILE"
    case ReplaceFile => "REPLACE_FILE"
    case DeleteFile => "DELETE_FILE"
  }

  function ParseOperation(text: string): Option<TypedFileOperation> {
    if text == "READ_FILE" then Some(ReadFile)
    else if text == "LIST_DIRECTORY" then Some(ListDirectory)
    else if text == "CREATE_FILE" then Some(CreateFile)
    else if text == "PATCH_FILE" then Some(PatchFile)
    else if text == "REPLACE_FILE" then Some(ReplaceFile)
    else if text == "DELETE_FILE" then Some(DeleteFile)
    else None
  }

  lemma OperationTextRoundTrip(op: TypedFileOperation)
    ensures ParseOperation(OperationText(op)) == Some(op)
  {
    var t := OperationText(op);
    assert t[0] == 'R' || t[0] == 'L' || t[0] == 'C' || t[0] == 'P' || t[0] == 'D';
    assert "READ_FILE"[2] == 'A' && "REPLACE_FILE"[2] == 'P';
    assert "LIST_DIRECTORY"[0] == 'L' && "CREATE_FILE"[0] == 'C' && "PATCH_FILE"[0] == 'P' && "DELETE_FILE"[0] == 'D';
  }

  function Strings(values: seq<string>): seq<Json> { seq(|values|, i requires 0 <= i < |values| => JString(values[i])) }

  function OperationTexts(ops: seq<TypedFileOperation>): seq<Json> {
    seq(|ops|, i requires 0 <= i < |ops| => JString(OperationText(ops[i])))
  }

  const OPERATION_HASH := "operationHash"
  const PREFIXES := "relativeDirectoryPrefixes"
  const OPERATIONS := "allowedOperations"
  const TYPE := "type"

  function Encode(c: GrantConstraint): Json {
    match c
    case Exact(hash) => JObject(map[TYPE := JString("EXACT"), OPERATION_HASH := JString(hash)])
    case ToolWide => JObject(map[TYPE := JString("TOOL_WIDE")])
    case WorkspaceRead(p, ops) =>
      JObject(map[TYPE := JString("WORKSPACE_READ"), PREFIXES := JArray(Strings(p)),
                  OPERATIONS := JArray(OperationTexts(ops))])
    case WorkspaceEdit(p, ops) =>
      JObject(map[TYPE := JString("WORKSPACE_EDIT"), PREFIXES := JArray(Strings(p)),
                  OPERATIONS := JArray(OperationTexts(ops))])
  }

  function KindOf(c: GrantConstraint): GrantKind {
    match c
    case Exact(_) => ExactGuarded
    case ToolWide => ToolGuarded
    case WorkspaceRead(_, _) => ReadCapability
    case WorkspaceEdit(_, _) => EditCapability
  }

  /** A JSON value read as text: strings as they are, null as "null", the rest printed. */
  function TextOf(value: Json, printed: Json -> string): string {
    match value
    case JString(s) => s
    case JNull => "null"
    case _ => printed(value)
  }

  function TextsOf(items: seq<Json>, printed: Json -> string): seq<string> {
    seq(|items|, i requires 0 <= i < |items| => TextOf(items[i], printed))
  }

  function ParseOperations(items: seq<Json>, printed: Json -> string): Option<seq<TypedFileOperation>> {
    if items == [] then Some([])
    else match ParseOperation(TextOf(items[0], printed))
      case None => None
      case Some(op) => match ParseOperations(items[1..], printed)
        case None => None
        case Some(rest) => Some([op] + rest)
  }

  /** Reads a stored constraint under the row's own kind; anything unusable is ignored. */
  function Decode(kind: GrantKind, encoded: Json, printed: Json -> string): Option<GrantConstraint> {
    if !encoded.JObject? then None
    else
      var fields := encoded.fields;
      if kind == ExactGuarded then
        Some(Exact(if OPERATION_HASH in fields then TextOf(fields[OPERATION_HASH], printed) else "null"))
      else if kind == ToolGuarded then Some(ToolWide)
      else if PREFIXES in fields && !fields[PREFIXES].JArray? then None
      else if OPERATIONS in fields && !fields[OPERATIONS].JArray? then None
      else
        var prefixes := if PREFIXES in fields then TextsOf(fields[PREFIXES].items, printed) else [];
        match if OPERATIONS in fields then ParseOperations(fields[OPERATIONS].items, printed) else Some([])
        case None => None
        case Some(operations) =>
          var built := if kind == ReadCapability then NewWorkspaceRead(prefixes, operations)
                       else NewWorkspaceEdit(prefixes, operations);
          if built.Ok? then Some(built.value) else None
  }

  /** Whatever bytes a row holds, a decoded constraint is well formed and of the row's kind. */
  lemma DecodeIsClosed(kind: GrantKind, encoded: Json, printed: Json -> string)
    requires Decode(kind, encoded, printed).Some?
    ensures var c := Decode(kind, encoded, printed).value; WellFormed(c) && KindOf(c) == kind
  {
    if kind != ExactGuarded && kind != ToolGuarded {
      var prefixes := if PREFIXES in encoded.fields then TextsOf(encoded.fields[PREFIXES].items, printed) else [];
      NormalizedPrefixesAreCanonical(prefixes);
    }
  }

  lemma {:induction false} OperationsRoundTrip(ops: seq<TypedFileOperation>, printed: Json -> string)
    ensures ParseOperations(OperationTexts(ops), printed) == Some(ops)
  {
    if ops != [] {
      OperationTextRoundTrip(ops[0]);
      assert OperationTexts(ops)[1..] == OperationTexts(ops[1..]);
      OperationsRoundTrip(ops[1..], printed);
      assert ops == [ops[0]] + ops[1..];
    }
  }

  lemma FieldNamesDiffer()
    ensures OPERATION_HASH != TYPE && PREFIXES != TYPE && OPERATIONS != TYPE && PREFIXES != OPERATIONS
  {
    assert OPERATION_HASH[0] == 'o' && TYPE[0] == 't' && PREFIXES[0] == 'r' && OPERATIONS[0] == 'a';
  }

  /** Decoding an encoded constraint under its own kind gives the constraint back. */
  lemma ConstraintRoundTrip(c: GrantConstraint, printed: Json -> string)
    requires WellFormed(c)
    ensures Decode(KindOf(c), Encode(c), printed) == Some(c)
  {
    FieldNamesDiffer();
    match c
    case Exact(_) =>
    case ToolWide =>
    case WorkspaceRead(p, ops) =>
      assert TextsOf(Strings(p), printed) == p;
      OperationsRoundTrip(ops, printed);
      NormalizedPrefixesAreCanonical(p);
    case WorkspaceEdit(p, ops) =>
      assert TextsOf(Strings(p), printed) == p;
      OperationsRoundTrip(ops, printed);
      NormalizedPrefixesAreCanonical(p);
  }
}
