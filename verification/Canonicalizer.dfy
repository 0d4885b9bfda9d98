/**
 Canonical authorization facts (crates/zk-authz/src/canonicalizer.rs), the descriptor built
 from them, and the re-analysis of a shell operation (crates/zk-authz/src/analyzer.rs).
 The operation hash is opaque and injective.
 */
module Canonicalizer {
  import opened Wrappers
  import opened AuthzModel
  import opened Ordering

  // ---------- the three orders ----------

  function EffectName(e: EffectClass): string {
    match e
    case SafeInternal => "SAFE_INTERNAL"
    case ReadResource => "READ_RESOURCE"
    case WriteResource => "WRITE_RESOURCE"
    case Process => "PROCESS"
    case Network => "NETWORK"
    case ControlPlane => "CONTROL_PLANE"
    case Unknown => "UNKNOWN"
  }

  predicate EffectLess(a: EffectClass, b: EffectClass) { TextLess(EffectName(a), EffectName(b)) }

  predicate ResourceLess(a: ResourceRef, b: ResourceRef) {
    if a.kind != b.kind then TextLess(a.kind, b.kind)
    else if a.value != b.value then TextLess(a.value, b.value)
    else !a.outsideWorkspace && b.outsideWorkspace
  }

  lemma EffectNamesDiffer(a: EffectClass, b: EffectClass)
    requires a != b
    ensures EffectName(a) != EffectName(b)
  {
    assert EffectName(a)[0] != EffectName(b)[0];
  }

  lemma EffectStrictTotal()
    ensures StrictTotal(EffectLess)
  {
    TextStrictTotal();
    forall a: EffectClass, b: EffectClass | a != b ensures EffectLess(a, b) || EffectLess(b, a) {
      EffectNamesDiffer(a, b);
      TextTotal(EffectName(a), EffectName(b));
    }
    forall a: EffectClass ensures !EffectLess(a, a) { TextTotal(EffectName(a), EffectName(a)); }
    forall a: EffectClass, b: EffectClass, c: EffectClass | EffectLess(a, b) && EffectLess(b, c)
      ensures EffectLess(a, c)
    {
      TextTransitive(EffectName(a), EffectName(b), EffectName(c));
    }
  }

  lemma ResourceStrictTotal()
    ensures StrictTotal(ResourceLess)
  {
    TextStrictTotal();
    forall a, b | a != b ensures ResourceLess(a, b) || ResourceLess(b, a) {
      TextTotal(a.kind, b.kind);
      TextTotal(a.value, b.value);
    }
    forall a ensures !ResourceLess(a, a) { }
    forall a, b, c | ResourceLess(a, b) && ResourceLess(b, c) ensures ResourceLess(a, c) {
      if a.kind == b.kind == c.kind {
        if a.value != b.value && b.value != c.value {
          TextTransitive(a.value, b.value, c.value);
          TextTotal(a.value, c.value);
        }
      } else if a.kind != b.kind && b.kind != c.kind {
        TextTransitive(a.kind, b.kind, c.kind);
        TextTotal(a.kind, c.kind);
      }
    }
  }

  // ---------- the canonicalizer's three entry points ----------

  method Effects(values: seq<EffectClass>) returns (out: seq<EffectClass>)
    ensures StrictlySorted(EffectLess, out) && SameElements(out, values)
    ensures out == Canonical(EffectLess, values)
  {
    EffectStrictTotal();
    out := Canonicalize(EffectLess, values);
  }

  method Resources(values: seq<ResourceRef>) returns (out: seq<ResourceRef>)
    ensures StrictlySorted(ResourceLess, out) && SameElements(out, values)
    ensures out == Canonical(ResourceLess, values)
  {
    ResourceStrictTotal();
    out := Canonicalize(ResourceLess, values);
  }

  method Strings(values: seq<string>) returns (out: seq<string>)
    ensures StrictlySorted(TextLess, out) && SameElements(out, values)
    ensures out == Canonical(TextLess, values)
  {
    TextStrictTotal();
    out := Canonicalize(TextLess, values);
  }

  // ---------- descriptors ----------

  /** What the operation hash commits to. */
  datatype OperationFacts = OperationFacts(
    toolName: string,
    action: Action,
    authorizationInput: string,
    analyzer: AnalyzerId,
    effects: seq<EffectClass>,
    resources: seq<ResourceRef>,
    environment: seq<string>,
    endpoints: seq<string>,
    risk: RiskClass)

  ghost predicate Injective(hash: OperationFacts -> string) {
    forall f, g :: hash(f) == hash(g) ==> f == g
  }

  function CanonicalFacts(f: OperationFacts): OperationFacts {
    f.(effects := Canonical(EffectLess, f.effects),
       resources := Canonical(ResourceLess, f.resources),
       environment := Canonical(TextLess, f.environment),
       endpoints := Canonical(TextLess, f.endpoints))
  }

  /** The hash and the published fields come from the same canonical facts. */
  function Descriptor(f: OperationFacts, inputHash: string, hash: OperationFacts -> string): OperationDescriptor {
    var c := CanonicalFacts(f);
    OperationDescriptor(1, c.toolName, c.action, inputHash, c.analyzer, c.effects, c.resources,
                        c.environment, c.endpoints, c.risk, hash(c))
  }

  /** The same facts, listed in any order and with any repetition. */
  ghost predicate SameFacts(f: OperationFacts, g: OperationFacts) {
    && f.toolName == g.toolName && f.action == g.action && f.authorizationInput == g.authorizationInput
    && f.analyzer == g.analyzer && f.risk == g.risk
    && SameElements(f.effects, g.effects) && SameElements(f.resources, g.resources)
    && SameElements(f.environment, g.environment) && SameElements(f.endpoints, g.endpoints)
  }

  lemma CanonicalFactsSame(f: OperationFacts, g: OperationFacts)
    ensures SameFacts(f, g) <==> CanonicalFacts(f) == CanonicalFacts(g)
  {
    EffectStrictTotal();
    ResourceStrictTotal();
    TextStrictTotal();
    CanonicalIsSortedSet(EffectLess, f.effects);
    CanonicalIsSortedSet(EffectLess, g.effects);
    CanonicalIsSortedSet(ResourceLess, f.resources);
    CanonicalIsSortedSet(ResourceLess, g.resources);
    CanonicalIsSortedSet(TextLess, f.environment);
    CanonicalIsSortedSet(TextLess, g.environment);
    CanonicalIsSortedSet(TextLess, f.endpoints);
    CanonicalIsSortedSet(TextLess, g.endpoints);
    if SameFacts(f, g) {
      CanonicalDependsOnSet(EffectLess, f.effects, g.effects);
      CanonicalDependsOnSet(ResourceLess, f.resources, g.resources);
      CanonicalDependsOnSet(TextLess, f.environment, g.environment);
      CanonicalDependsOnSet(TextLess, f.endpoints, g.endpoints);
    }
  }

  /** Two analyses agree on the descriptor, and on the hash alone, exactly when their facts agree as sets. */
  lemma DescriptorDependsOnSets(f: OperationFacts, g: OperationFacts, inputHash: string, hash: OperationFacts -> string)
    requires Injective(hash)
    ensures SameFacts(f, g) <==> Descriptor(f, inputHash, hash) == Descriptor(g, inputHash, hash)
    ensures SameFacts(f, g) <==>
            Descriptor(f, inputHash, hash).operationHash == Descriptor(g, inputHash, hash).operationHash
  {
    CanonicalFactsSame(f, g);
  }

  // ---------- shell operations ----------

  const CWD_KIND := "cwd"

  /** Where a working directory or an output resolves to. */
  datatype Place = Place(value: string, outside: bool)

  predicate PlaceLess(a: Place, b: Place) {
    if a.value != b.value then TextLess(a.value, b.value) else !a.outside && b.outside
  }

  /** The facts one shell analysis finds; outputs stand as declared, references come as a set of names. */
  datatype BashFacts = BashFacts(
    cwd: Place,
    outputs: seq<Place>,
    references: set<string>,
    risk: RiskClass,
    effects: seq<EffectClass>,
    authorizationInput: string)

  /** The working directory first, then the declared outputs in the order of their declaration. */
  function BashResources(f: BashFacts): seq<ResourceRef> {
    [ResourceRef(CWD_KIND, f.cwd.value, f.cwd.outside)] +
    seq(|f.outputs|, i requires 0 <= i < |f.outputs| =>
      ResourceRef(PATH_KIND, f.outputs[i].value, f.outputs[i].outside))
  }

  /** The inherited names, sorted before they are used. */
  ghost function Inherited(f: BashFacts): seq<string> { Sorted(f.references) }

  ghost function BashOperation(toolName: string, f: BashFacts, effects: seq<EffectClass>): OperationFacts {
    OperationFacts(toolName, OtherAction("execute"), f.authorizationInput, BashV2, effects,
                   BashResources(f), Inherited(f), [], f.risk)
  }

  ghost function AnalyzeBash(toolName: string, inputHash: string, f: BashFacts, hash: OperationFacts -> string):
    OperationDescriptor
  {
    Descriptor(BashOperation(toolName, f, f.effects), inputHash, hash)
  }

  /**
   The four comparisons of the recheck. The canonical risk and hash are compared with the
   approved ones, but the resources and inherited names are compared as found.
   */
  ghost predicate RecheckBash(d: OperationDescriptor, f: BashFacts, hash: OperationFacts -> string) {
    var current := Descriptor(BashOperation(d.toolName, f, d.effects), d.inputHash, hash);
    && current.risk == d.risk
    && BashResources(f) == d.resources
    && Inherited(f) == d.environment
    && current.operationHash == d.operationHash
  }

  /** Sorted names are canonical as they are, so they never differ from the approved ones by order. */
  lemma InheritedIsCanonical(f: BashFacts)
    ensures Canonical(TextLess, Inherited(f)) == Inherited(f)
  {
    TextStrictTotal();
    CanonicalFixpoint(TextLess, Inherited(f));
  }

  lemma EqualNamesEqualLists(a: set<string>, b: set<string>)
    ensures Sorted(a) == Sorted(b) <==> a == b
  {
    if Sorted(a) == Sorted(b) {
      forall x ensures x in a <==> x in b { assert x in Sorted(a) <==> x in Sorted(b); }
    }
  }

  /**
   An approved shell operation passes on later facts exactly when those list the approved
   canonical resources verbatim, reference the same names and carry the same risk and input.
   */
  lemma RecheckBashExact(toolName: string, inputHash: string, before: BashFacts, now: BashFacts,
                         hash: OperationFacts -> string)
    requires Injective(hash)
    ensures RecheckBash(AnalyzeBash(toolName, inputHash, before, hash), now, hash) <==>
              && BashResources(now) == Canonical(ResourceLess, BashResources(before))
              && now.references == before.references
              && now.risk == before.risk
              && now.authorizationInput == before.authorizationInput
  {
    EffectStrictTotal();
    ResourceStrictTotal();
    CanonicalIsSortedSet(EffectLess, before.effects);
    CanonicalFixpoint(EffectLess, Canonical(EffectLess, before.effects));
    CanonicalIsSortedSet(ResourceLess, BashResources(before));
    CanonicalFixpoint(ResourceLess, Canonical(ResourceLess, BashResources(before)));
    InheritedIsCanonical(before);
    InheritedIsCanonical(now);
    EqualNamesEqualLists(now.references, before.references);
  }

  /** The working directory sorts before every path, so only the outputs decide the order. */
  lemma ResourcesSortedByOutputs(f: BashFacts)
    ensures StrictlySorted(ResourceLess, BashResources(f)) <==> StrictlySorted(PlaceLess, f.outputs)
  {
    var all := BashResources(f);
    assert CWD_KIND[0] < PATH_KIND[0];
    assert forall i :: 0 <= i < |f.outputs| ==>
      all[i + 1] == ResourceRef(PATH_KIND, f.outputs[i].value, f.outputs[i].outside);
    if StrictlySorted(ResourceLess, all) {
      forall i, j | 0 <= i < j < |f.outputs| ensures PlaceLess(f.outputs[i], f.outputs[j]) {
        assert ResourceLess(all[i + 1], all[j + 1]);
      }
    }
    if StrictlySorted(PlaceLess, f.outputs) {
      forall i, j | 0 <= i < j < |all| ensures ResourceLess(all[i], all[j]) {
        if i > 0 { assert PlaceLess(f.outputs[i - 1], f.outputs[j - 1]); }
      }
    }
  }

  /** Unchanged shell facts are accepted exactly when the declared outputs resolve in strictly increasing order. */
  lemma UnchangedBashAccepted(toolName: string, inputHash: string, f: BashFacts, hash: OperationFacts -> string)
    requires Injective(hash)
    ensures RecheckBash(AnalyzeBash(toolName, inputHash, f, hash), f, hash) <==> StrictlySorted(PlaceLess, f.outputs)
  {
    RecheckBashExact(toolName, inputHash, f, f, hash);
    ResourceStrictTotal();
    CanonicalFixpoint(ResourceLess, BashResources(f));
    ResourcesSortedByOutputs(f);
  }

  /** With at most one declared output, whatever the command references, unchanged facts pass. */
  lemma PlainBashAccepted(toolName: string, inputHash: string, f: BashFacts, hash: OperationFacts -> string)
    requires Injective(hash) && |f.outputs| <= 1
    ensures RecheckBash(AnalyzeBash(toolName, inputHash, f, hash), f, hash)
  {
    UnchangedBashAccepted(toolName, inputHash, f, hash);
  }

  /** Declaring the outputs b and a in that order: nothing changes, yet the recheck denies. */
  lemma UnchangedBashDenied(hash: OperationFacts -> string, f: BashFacts)
    requires Injective(hash) && f.outputs == [Place("b", false), Place("a", false)]
    ensures !RecheckBash(AnalyzeBash("Bash", "hash", f, hash), f, hash)
  {
    UnchangedBashAccepted("Bash", "hash", f, hash);
    assert !PlaceLess(f.outputs[0], f.outputs[1]);
  }

  /** One file declared under two spellings, anywhere among the outputs, is denied as well. */
  lemma SameFileTwiceDenied(toolName: string, inputHash: string, hash: OperationFacts -> string, f: BashFacts,
                            i: nat, j: nat)
    requires Injective(hash) && i < j < |f.outputs| && f.outputs[i] == f.outputs[j]
    ensures !RecheckBash(AnalyzeBash(toolName, inputHash, f, hash), f, hash)
  {
    UnchangedBashAccepted(toolName, inputHash, f, hash);
    assert !PlaceLess(f.outputs[i], f.outputs[j]);
  }
}
