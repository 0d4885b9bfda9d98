/**
 Binding an approved file operation to its analysed target (crates/zk-authz/src/analyzer.rs):
 the input is rewritten with the resolved path, and the recheck analyses it again.
 */
module PathBinding {
  import opened Wrappers
  import opened AuthzModel
  import opened Segments
  import opened Constraints
  import opened Ordering
  import opened Canonicalizer
  import opened Paths
  import opened PathSecurity

  // ---------- resources ----------

  function Forward(s: string): string { seq(|s|, i requires 0 <= i < |s| => if s[i] == BACKSLASH then SLASH else s[i]) }

  /** A target inside the root by its relative name, any other by its full name. */
  function RelativeResource(kind: string, target: Path, root: Path): ResourceRef {
    var outside := !(root <= target);
    var value :=
      if outside then TextOfPath(target)
      else if target == root then "" else Forward(Join(target[|root|..], SLASH));
    ResourceRef(kind, if value == "" then "." else value, outside)
  }

  function BoundTarget(r: ResourceRef, root: Path): Path {
    Resolve(if r.outsideWorkspace then [] else root, r.value)
  }

  predicate BackslashFree(names: seq<string>) { forall i :: 0 <= i < |names| ==> Free(names[i], BACKSLASH) }

  lemma ForwardIsIdentity(s: string)
    requires Free(s, BACKSLASH)
    ensures Forward(s) == s
  {
  }

  lemma {:induction false} JoinIsBackslashFree(names: seq<string>)
    requires names != []
    ensures BackslashFree(names) <==> Free(Join(names, SLASH), BACKSLASH)
  {
    if |names| > 1 {
      JoinIsBackslashFree(names[1..]);
      var s, rest := Join(names, SLASH), Join(names[1..], SLASH);
      assert names == [names[0]] + names[1..];
      assert forall i :: 0 <= i < |names[0]| ==> s[i] == names[0][i];
      assert forall i :: 0 <= i < |rest| ==> s[|names[0]| + 1 + i] == rest[i];
    }
  }

  /** Walking over names without backslash adds no backslash beyond what the start had. */
  lemma {:induction false} WalkStaysBackslashFree(out: Path, components: seq<string>, from: nat)
    requires BackslashFree(components) && forall i :: from <= i < |out| ==> Free(out[i], BACKSLASH)
    ensures forall i :: from <= i < |Walk(out, components)| ==> Free(Walk(out, components)[i], BACKSLASH)
    decreases |components|
  {
    if components != [] {
      WalkStaysBackslashFree(Step(out, components[0]), components[1..], from);
    }
  }

  lemma {:induction false} SplitIsBackslashFree(s: string)
    requires Free(s, BACKSLASH)
    ensures BackslashFree(Split(s, SLASH))
  {
    JoinSplit(s, SLASH);
    JoinIsBackslashFree(Split(s, SLASH));
  }

  lemma ForwardLacksBackslash(s: string)
    ensures Free(Forward(s), BACKSLASH)
  {
  }

  /**
   Joining the recorded resource back to the root gives exactly the analysed target, unless the
   target is inside the root and a name below the root holds a backslash; then it never does.
   */
  lemma BindingIsExact(kind: string, target: Path, root: Path)
    requires Normal(target)
    ensures BoundTarget(RelativeResource(kind, target, root), root) == target <==>
              !(root <= target) || BackslashFree(target[|root|..])
  {
    if !(root <= target) {
      PathTextRoundTrip([], target);
    } else if target == root {
      SplitFree(".", SLASH);
      assert Walk(root, ["."]) == root by { assert ["."][1..] == []; }
      assert target[|root|..] == [];
    } else {
      var rest := target[|root|..];
      assert Normal(rest) by { assert forall i :: 0 <= i < |rest| ==> rest[i] == target[|root| + i]; }
      var text := Join(rest, SLASH);
      JoinIsNotEmpty(rest);
      JoinIsBackslashFree(rest);
      if BackslashFree(rest) {
        ForwardIsIdentity(text);
        RelativeTextRoundTrip(root, rest);
        assert root + rest == target;
      } else {
        ForwardLacksBackslash(text);
        SplitIsBackslashFree(Forward(text));
        var start := if IsAbsolute(Forward(text)) then [] else root;
        WalkStaysBackslashFree(start, Split(Forward(text), SLASH), |root|);
        var i :| 0 <= i < |rest| && !Free(rest[i], BACKSLASH);
        assert target[|root| + i] == rest[i];
      }
    }
  }

  lemma JoinIsNotEmpty(names: seq<string>)
    requires Normal(names) && names != []
    ensures Join(names, SLASH) != ""
  {
    assert NormalName(names[0]);
  }

  /** Two different files with one recorded resource: a name with a backslash, and a file in a directory. */
  lemma BackslashLosesIdentity()
    ensures var root: Path := ["work"];
      && RelativeResource(PATH_KIND, root + ["a\\b"], root) == RelativeResource(PATH_KIND, root + ["a", "b"], root)
      && root + ["a\\b"] != root + ["a", "b"]
  {
    var root: Path := ["work"];
    var one, two := root + ["a\\b"], root + ["a", "b"];
    assert one[1..] == ["a\\b"] && two[1..] == ["a", "b"];
    assert Join(["a", "b"], SLASH) == "a/b";
    assert Forward("a\\b") == "a/b" && Forward("a/b") == "a/b";
  }

  // ---------- analysis ----------

  datatype Tool = Lsp | NotebookEdit | OtherFile(write: bool)

  type Input = map<string, string>

  predicate Writes(t: Tool) { t.NotebookEdit? || (t.OtherFile? && t.write) }

  function Field(input: Input, name: string): Option<string> {
    if name in input then Some(input[name]) else None
  }

  function NonBlank(input: Input, name: string): Option<string> {
    if name in input && !Blank(input[name]) then Some(input[name]) else None
  }

  function OrElse(a: Option<string>, b: Option<string>): Option<string> { if a.Some? then a else b }

  /** A tool's own reading of its path: notebooks skip blank fields, writers take theirs, readers have none. */
  function PathOf(t: Tool, input: Input): Option<string> {
    match t
    case NotebookEdit => OrElse(NonBlank(input, "notebook_path"), NonBlank(input, "path"))
    case OtherFile(write) => if write then Field(input, "file_path") else None
    case Lsp => OrElse(Field(input, "file_path"), Field(input, "filePath"))
  }

  /** The tool's own reading first, then the usual fields in order; the language tool has an order of its own. */
  function RawPath(t: Tool, input: Input): Option<string> {
    if t.Lsp? then OrElse(Field(input, "filePath"), Field(input, "file_path"))
    else
      var usual := OrElse(Field(input, "file_path"), OrElse(Field(input, "path"), Field(input, "notebook_path")));
      OrElse(PathOf(t, input), usual)
  }

  /** The first of some fields that is there. */
  function FirstOf(input: Input, names: seq<string>): Option<string> {
    if names == [] then None else if names[0] in input then Some(input[names[0]]) else FirstOf(input, names[1..])
  }

  /** Which field each tool is read from, and in which order. */
  lemma PathIsTakenInOrder(t: Tool, input: Input)
    ensures t.Lsp? ==> RawPath(t, input) == FirstOf(input, ["filePath", "file_path"])
    ensures t.OtherFile? ==> RawPath(t, input) == FirstOf(input, ["file_path", "path", "notebook_path"])
    ensures t.NotebookEdit? ==>
              RawPath(t, input) ==
                if "notebook_path" in input && !Blank(input["notebook_path"]) then Some(input["notebook_path"])
                else if "path" in input && !Blank(input["path"]) then Some(input["path"])
                else FirstOf(input, ["file_path", "path", "notebook_path"])
  {
    var last, two, three := ["notebook_path"], ["path", "notebook_path"], ["file_path", "path", "notebook_path"];
    assert last[1..] == [] && two[1..] == last && three[1..] == two;
    assert FirstOf(input, last) == Field(input, "notebook_path");
    assert FirstOf(input, two) == OrElse(Field(input, "path"), FirstOf(input, last));
    assert FirstOf(input, three) == OrElse(Field(input, "file_path"), FirstOf(input, two));
    var other, both := ["file_path"], ["filePath", "file_path"];
    assert other[1..] == [] && both[1..] == other;
    assert FirstOf(input, other) == Field(input, "file_path");
  }

  datatype FileFacts = FileFacts(resource: ResourceRef, sensitive: bool)

  datatype World = World(fs: Filesystem, policy: Policy, root: Path, base: Path)

  predicate IsUnc(text: string) { "//" <= text || [BACKSLASH, BACKSLASH] <= text }

  /** Identity by the resolved path, protection by both the resolved and the requested one. */
  function Inspect(w: World, write: bool, raw: string): Option<FileFacts> {
    if NUL in raw || IsUnc(raw) then None
    else
      var lexical := Resolve(w.base, raw);
      var check := PathCheck(w.fs, w.policy, write, lexical, w.root);
      if check == Denied then None
      else Some(FileFacts(RelativeResource(PATH_KIND, Real(w.fs, lexical), w.root), check == NeedsConfirmation))
  }

  function FileRisk(write: bool, facts: FileFacts): RiskClass {
    if facts.sensitive then High else if write || facts.resource.outsideWorkspace then Guarded else Safe
  }

  function Rank(r: RiskClass): nat { match r case Safe => 0 case Guarded => 1 case High => 2 }

  /** What an input names: nothing usable, something refused, or a target. */
  datatype Found = NoPath | Refused | Target(facts: FileFacts)

  function PathFacts(w: World, t: Tool, input: Input): Found {
    var raw := RawPath(t, input);
    if raw.None? || Blank(raw.value) then NoPath
    else
      var facts := Inspect(w, Writes(t), raw.value);
      if facts.None? then Refused else Target(facts.value)
  }

  const ROOT_RESOURCE := ResourceRef(PATH_KIND, ".", false)

  /** The language tool works on the whole workspace when it names no file. */
  function FoundResources(t: Tool, found: Found): seq<ResourceRef> {
    if found.Target? then [found.facts.resource] else if t.Lsp? then [ROOT_RESOURCE] else []
  }

  function FoundRisk(t: Tool, found: Found): RiskClass {
    if found.Target? then FileRisk(Writes(t), found.facts) else if Writes(t) then Guarded else Safe
  }

  datatype FileDescriptor = FileDescriptor(resources: seq<ResourceRef>, risk: RiskClass)

  function AnalyzeFile(w: World, t: Tool, input: Input): Option<FileDescriptor> {
    var found := PathFacts(w, t, input);
    if found.Refused? then None
    else Some(FileDescriptor(Canonical(ResourceLess, FoundResources(t, found)), FoundRisk(t, found)))
  }

  /** The later analysis finds the same resources and no greater risk. */
  predicate RecheckFile(w: World, t: Tool, d: FileDescriptor, input: Input) {
    var found := PathFacts(w, t, input);
    && !found.Refused?
    && d.resources == Canonical(ResourceLess, FoundResources(t, found))
    && Rank(FoundRisk(t, found)) <= Rank(d.risk)
  }

  /** When an input is refused, and what its risk rests on. */
  lemma AnalysisExactly(w: World, t: Tool, input: Input)
    requires RawPath(t, input).Some? && !Blank(RawPath(t, input).value)
    ensures var raw := RawPath(t, input).value;
      var check := PathCheck(w.fs, w.policy, Writes(t), Resolve(w.base, raw), w.root);
      var inside := w.root <= Real(w.fs, Resolve(w.base, raw));
      var d := AnalyzeFile(w, t, input);
      && (d.None? <==> NUL in raw || "//" <= raw || "\\\\" <= raw || check == Denied)
      && (d.Some? ==>
            && (d.value.risk == High <==> check == NeedsConfirmation)
            && (d.value.risk == Safe <==> check == Allowed && inside && !Writes(t))
            && d.value.resources == [RelativeResource(PATH_KIND, Real(w.fs, Resolve(w.base, raw)), w.root)])
  {
    assert [BACKSLASH, BACKSLASH] == "\\\\";
    if AnalyzeFile(w, t, input).Some? {
      OneResourceIsCanonical(RelativeResource(PATH_KIND, Real(w.fs, Resolve(w.base, RawPath(t, input).value)), w.root));
    }
  }

  /** Only the tool's path field is replaced, and only when the tool has one to replace. */
  function Bind(t: Tool, resource: ResourceRef, root: Path, input: Input): Option<Input> {
    var path := TextOfPath(BoundTarget(resource, root));
    match t
    case Lsp =>
      var first := if "filePath" in input then input["filePath" := path] else input;
      var both := if "file_path" in input then first["file_path" := path] else first;
      if "filePath" in input || "file_path" in input then Some(both) else None
    case NotebookEdit => Some(input["notebook_path" := path])
    case OtherFile(_) => if "file_path" in input then Some(input["file_path" := path]) else None
  }

  method BindExecutionInput(t: Tool, resource: ResourceRef, root: Path, input: Input) returns (result: Option<Input>)
    ensures result == Bind(t, resource, root, input)
    ensures result.Some? ==> forall k :: k in input && k !in {"filePath", "file_path", "notebook_path"} ==>
              k in result.value && result.value[k] == input[k]
  {
    var base := if resource.outsideWorkspace then [] else root;
    var target := AbsoluteNormalized(base, resource.value);
    var path := TextOfPath(target);
    var bound := input;
    match t
    case Lsp =>
      var replaced := false;
      if "filePath" in bound { bound := bound["filePath" := path]; replaced := true; }
      if "file_path" in bound { bound := bound["file_path" := path]; replaced := true; }
      if !replaced { return None; }
      return Some(bound);
    case NotebookEdit =>
      return Some(bound["notebook_path" := path]);
    case OtherFile(_) =>
      if "file_path" !in bound { return None; }
      return Some(bound["file_path" := path]);
  }

  /** The fields that a tool's execution reads its file from. */
  function PathFields(t: Tool): set<string> {
    match t
    case Lsp => {"filePath", "file_path"}
    case NotebookEdit => {"notebook_path"}
    case OtherFile(_) => {"file_path"}
  }

  /**
   What binding does: it always binds a notebook, any other tool when the input has one of its fields;
   each of those fields then names the bound target, and everything else is as it came.
   */
  lemma BindsExactly(t: Tool, resource: ResourceRef, root: Path, input: Input)
    ensures Bind(t, resource, root, input).Some? <==> t.NotebookEdit? || exists k :: k in PathFields(t) && k in input
    ensures Bind(t, resource, root, input).Some? ==>
              var bound := Bind(t, resource, root, input).value;
              && bound.Keys == input.Keys + (if t.NotebookEdit? then {"notebook_path"} else {})
              && (forall k :: k in bound && k in PathFields(t) ==>
                    bound[k] == TextOfPath(BoundTarget(resource, root)))
              && (forall k :: k in input && k !in PathFields(t) ==> bound[k] == input[k])
  {
  }

  /** What is executed: the input bound to the first resource, or the input as it came. */
  function Executed(t: Tool, d: FileDescriptor, root: Path, input: Input): Input {
    if d.resources == [] then input
    else
      var bound := Bind(t, d.resources[0], root, input);
      if bound.Some? then bound.value else input
  }

  /** The recheck reads what was bound, whatever else the input carries. */
  lemma BoundFieldIsRead(t: Tool, resource: ResourceRef, root: Path, input: Input)
    requires Bind(t, resource, root, input).Some?
    ensures RawPath(t, Bind(t, resource, root, input).value) == Some(TextOfPath(BoundTarget(resource, root)))
  {
    var path := TextOfPath(BoundTarget(resource, root));
    assert path[0] == SLASH && !IsWhitespace(path[0]);
  }

  // ---------- stability ----------

  predicate WorldOk(w: World) { Normal(w.root) && Normal(w.base) && NulFree(w.root) && NulFree(w.base) }

  lemma {:induction false} JoinHasNul(names: seq<string>)
    requires names != [] && forall i :: 0 <= i < |names| ==> NUL !in names[i]
    ensures NUL !in Join(names, SLASH)
  {
    if |names| > 1 { JoinHasNul(names[1..]); }
  }

  lemma {:induction false} WalkIsNulFree(out: Path, components: seq<string>)
    requires NulFree(out) && NulFree(components)
    ensures NulFree(Walk(out, components))
    decreases |components|
  {
    if components != [] { WalkIsNulFree(Step(out, components[0]), components[1..]); }
  }

  lemma {:induction false} PartsAreNulFree(parts: seq<string>)
    requires parts != [] && NUL !in Join(parts, SLASH)
    ensures NulFree(parts)
  {
    if |parts| > 1 {
      PartsAreNulFree(parts[1..]);
      assert parts == [parts[0]] + parts[1..];
      assert Join(parts, SLASH) == parts[0] + [SLASH] + Join(parts[1..], SLASH);
    }
  }

  /** The analysed target is a normal path without NUL. */
  lemma TargetIsNormal(w: World, raw: string)
    requires Coherent(w.fs) && WorldOk(w) && NUL !in raw
    ensures Normal(Real(w.fs, Resolve(w.base, raw))) && NulFree(Real(w.fs, Resolve(w.base, raw)))
  {
    ResolveIsNormal(w.base, raw);
    JoinSplit(raw, SLASH);
    PartsAreNulFree(Split(raw, SLASH));
    WalkIsNulFree(if IsAbsolute(raw) then [] else w.base, Split(raw, SLASH));
    RealIsNormal(w.fs, Resolve(w.base, raw));
  }

  /** The text of a normal path is absolute, never blank, never a network path, and free of NUL. */
  lemma PathTextIsPlain(p: Path)
    requires Normal(p) && NulFree(p)
    ensures var s := TextOfPath(p); s != "" && s[0] == SLASH && !Blank(s) && !IsUnc(s) && NUL !in s
  {
    var s := TextOfPath(p);
    assert !IsWhitespace(s[0]);
    if p != [] {
      JoinHasNul(p);
      assert NormalName(p[0]);
      assert Join(p, SLASH)[0] == p[0][0];
      assert s[1] == p[0][0];
    }
  }

  /** Analysing the resolved name again finds the same resource, is not denied, and adds no confirmation. */
  lemma ReanalysisIsStable(w: World, write: bool, raw: string)
    requires Coherent(w.fs) && WorldOk(w) && NUL !in raw
    ensures var facts, again := Inspect(w, write, raw), Inspect(w, write, TextOfPath(Real(w.fs, Resolve(w.base, raw))));
      facts.Some? ==>
        && again.Some? && again.value.resource == facts.value.resource
        && (again.value.sensitive ==> facts.value.sensitive)
        && Rank(FileRisk(write, again.value)) <= Rank(FileRisk(write, facts.value))
  {
    var lexical := Resolve(w.base, raw);
    var target := Real(w.fs, lexical);
    TargetIsNormal(w, raw);
    PathTextIsPlain(target);
    PathTextRoundTrip(w.base, target);
    RealIsFixed(w.fs, lexical);
    ResolvedNameChecksNoWorse(w.fs, w.policy, write, lexical, w.root);
  }

  lemma OneResourceIsCanonical(r: ResourceRef)
    ensures Canonical(ResourceLess, [r]) == [r]
  {
    ResourceStrictTotal();
    CanonicalFixpoint(ResourceLess, [r]);
  }

  /** A target whose name can be read back from its resource: outside the root, or no backslash below it. */
  predicate Recoverable(w: World, target: Path) { !(w.root <= target) || BackslashFree(target[|w.root|..]) }

  /** Binding an approved target names exactly that target, and the recheck finds what was approved. */
  lemma BoundInputPassesRecheck(w: World, t: Tool, input: Input)
    requires Coherent(w.fs) && WorldOk(w) && PathFacts(w, t, input).Target?
    requires Recoverable(w, Real(w.fs, Resolve(w.base, RawPath(t, input).value)))
    ensures var facts := PathFacts(w, t, input).facts;
      var bound := Bind(t, facts.resource, w.root, input);
      && BoundTarget(facts.resource, w.root) == Real(w.fs, Resolve(w.base, RawPath(t, input).value))
      && (bound.Some? ==>
            && RawPath(t, bound.value) == Some(TextOfPath(BoundTarget(facts.resource, w.root)))
            && RecheckFile(w, t, AnalyzeFile(w, t, input).value, bound.value))
  {
    var raw := RawPath(t, input).value;
    var facts := PathFacts(w, t, input).facts;
    var target := Real(w.fs, Resolve(w.base, raw));
    TargetIsNormal(w, raw);
    BindingIsExact(PATH_KIND, target, w.root);
    ReanalysisIsStable(w, Writes(t), raw);
    PathTextIsPlain(target);
    if Bind(t, facts.resource, w.root, input).Some? {
      BoundFieldIsRead(t, facts.resource, w.root, input);
    }
  }

  /** An input that names no file but carries a blank field of the language tool is bound to the root. */
  lemma BlankFieldBindsRoot(w: World, t: Tool, input: Input)
    requires Coherent(w.fs) && WorldOk(w) && PathFacts(w, t, input).NoPath?
    requires t.Lsp? && RawPath(t, input).Some?
    ensures var d := AnalyzeFile(w, t, input).value;
      RecheckFile(w, t, d, Executed(t, d, w.root, input)) <==>
        Real(w.fs, w.root) == w.root && PathCheck(w.fs, w.policy, false, w.root, w.root) == Allowed
  {
    var resolved := Real(w.fs, w.root);
    OneResourceIsCanonical(ROOT_RESOURCE);
    SplitFree(".", SLASH);
    assert Walk(w.root, ["."]) == w.root by { assert ["."][1..] == []; }
    BoundFieldIsRead(t, ROOT_RESOURCE, w.root, input);
    PathTextIsPlain(w.root);
    PathTextRoundTrip(w.base, w.root);
    RealIsNormal(w.fs, w.root);
    OneResourceIsCanonical(RelativeResource(PATH_KIND, resolved, w.root));
    OnlyRootIsRoot(resolved, w.root);
  }

  lemma OnlyRootIsRoot(target: Path, root: Path)
    requires Normal(target)
    ensures RelativeResource(PATH_KIND, target, root) == ROOT_RESOURCE <==> target == root
  {
    if root <= target && target != root {
      var rest := target[|root|..];
      assert Normal(rest) by { assert forall i :: 0 <= i < |rest| ==> rest[i] == target[|root| + i]; }
      JoinIsNotEmpty(rest);
      var text := Join(rest, SLASH);
      assert text != "." by { assert NormalName(rest[0]); }
    }
  }

  /**
   Whatever an analysed single-path tool is given, with an unchanged filesystem the input it then
   executes passes the recheck: bound to its target, or as it came where nothing is bound. Only a
   backslash below the root and a blank field, which is bound to the root, need a condition.
   */
  lemma ExecutedInputPassesRecheck(w: World, t: Tool, input: Input)
    requires Coherent(w.fs) && WorldOk(w) && AnalyzeFile(w, t, input).Some?
    requires PathFacts(w, t, input).Target? ==>
               Recoverable(w, Real(w.fs, Resolve(w.base, RawPath(t, input).value)))
    requires PathFacts(w, t, input).NoPath? && t.Lsp? && RawPath(t, input).Some? ==>
               Real(w.fs, w.root) == w.root && PathCheck(w.fs, w.policy, false, w.root, w.root) == Allowed
    ensures var d := AnalyzeFile(w, t, input).value;
      RecheckFile(w, t, d, Executed(t, d, w.root, input))
  {
    var found := PathFacts(w, t, input);
    if found.Target? {
      OneResourceIsCanonical(found.facts.resource);
      BoundInputPassesRecheck(w, t, input);
    } else if t.Lsp? {
      OneResourceIsCanonical(ROOT_RESOURCE);
      if RawPath(t, input).Some? { BlankFieldBindsRoot(w, t, input); }
    } else {
      assert Canonical(ResourceLess, []) == [];
    }
  }
}
