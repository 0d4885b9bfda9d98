/**
 Path resolution and permission checks (crates/zk-authz/src/path_security.rs). The filesystem
 is an abstract canonicalizer with the coherence that real directories have.
 */
module PathSecurity {
  import opened Wrappers
  import opened Ascii
  import opened AuthzModel
  import opened Constraints
  import opened Paths

  // ---------- the filesystem ----------

  /** Whether a name exists without following it, what it resolves to, and whether it is a link. */
  datatype Filesystem = Filesystem(present: Path -> bool, canon: Path -> Option<Path>, isSymlink: Path -> bool)

  function Child(p: Path, name: string): Path { p + [name] }

  predicate NulFree(p: Path) { forall i :: 0 <= i < |p| ==> NUL !in p[i] }

  ghost predicate Coherent(fs: Filesystem) {
    && fs.present([]) && fs.canon([]) == Some([])
    && (forall p :: fs.canon(p).Some? ==> fs.present(p))
    && (forall p :: fs.canon(p).Some? ==>
          var q := fs.canon(p).value;
          Normal(q) && NulFree(q) && fs.canon(q) == Some(q) && !fs.isSymlink(q))
    && (forall p, k :: fs.present(p) && 0 <= k <= |p| ==> fs.present(p[..k]))
    && (forall p, name :: fs.canon(p).Some? ==>
         (fs.present(Child(p, name)) <==> fs.present(Child(fs.canon(p).value, name))))
  }

  // ---------- resolution ----------

  /** The length of the longest prefix that exists, at most n. */
  function Existing(fs: Filesystem, p: Path, n: nat): (m: Option<nat>)
    requires n <= |p|
    ensures m.Some? ==> m.value <= n && fs.present(p[..m.value])
  {
    if fs.present(p[..n]) then Some(n) else if n == 0 then None else Existing(fs, p, n - 1)
  }

  /** The real path of the existing part, with the missing names put back. */
  function ThroughAncestor(fs: Filesystem, p: Path): Path {
    match Existing(fs, p, |p|)
    case None => p
    case Some(n) => match fs.canon(p[..n]) case None => p case Some(q) => q + p[n..]
  }

  /** Canonicalization first; the climb is only for what does not resolve. */
  function Real(fs: Filesystem, p: Path): Path {
    match fs.canon(p) case Some(q) => q case None => ThroughAncestor(fs, p)
  }

  method ResolveThroughExistingAncestor(fs: Filesystem, candidate: Path) returns (resolved: Path)
    ensures resolved == ThroughAncestor(fs, candidate)
  {
    var existing := candidate;
    var missing: seq<string> := [];
    while !fs.present(existing)
      invariant |existing| + |missing| == |candidate|
      invariant existing == candidate[..|existing|]
      invariant forall k :: 0 <= k < |missing| ==> missing[k] == candidate[|candidate| - 1 - k]
      invariant Existing(fs, candidate, |existing|) == Existing(fs, candidate, |candidate|)
      decreases |existing|
    {
      if existing == [] { return candidate; }
      missing := missing + [existing[|existing| - 1]];
      existing := existing[..|existing| - 1];
      assert existing == candidate[..|existing|];
    }
    var start := fs.canon(existing);
    if start.None? { return candidate; }
    resolved := start.value;
    var k := |missing|;
    while k > 0
      invariant 0 <= k <= |missing|
      invariant resolved == start.value + candidate[|existing|..|candidate| - k]
    {
      k := k - 1;
      ghost var name := candidate[|candidate| - 1 - k];
      assert candidate[|existing|..|candidate| - k] == candidate[|existing|..|candidate| - k - 1] + [name];
      resolved := resolved + [missing[k]];
    }
    assert candidate[|existing|..|candidate| - 0] == candidate[|existing|..];
  }

  lemma {:induction false} ExistingIsLongest(fs: Filesystem, p: Path, n: nat)
    requires n <= |p|
    ensures match Existing(fs, p, n)
      case None => forall k :: 0 <= k <= n ==> !fs.present(p[..k])
      case Some(m) => m <= n && fs.present(p[..m]) && forall k :: m < k <= n ==> !fs.present(p[..k])
  {
    if !fs.present(p[..n]) && n > 0 { ExistingIsLongest(fs, p, n - 1); }
  }

  /** Where a path resolves: to its canonical form, or as it stands, or below a canonical directory where it is
    * missing. */
  lemma RealCases(fs: Filesystem, p: Path) returns (q: Path, rest: seq<string>)
    requires Coherent(fs)
    ensures Real(fs, p) == q + rest
    ensures || (rest == [] && fs.canon(q) == Some(q))
            || (rest == [] && q == p && fs.canon(p) == None && fs.present(p))
            || (rest != [] && fs.canon(q) == Some(q) && !fs.present(Child(q, rest[0])) && |rest| <= |p|
              && rest == p[|p| - |rest|..])
            || (rest == [] && q == p && fs.canon(p) == None && ThroughAncestor(fs, p) == p)
  {
    if fs.canon(p).Some? {
      q, rest := fs.canon(p).value, [];
      assert q + rest == q;
    } else {
      ExistingIsLongest(fs, p, |p|);
      assert p[..0] == [] && p[..|p|] == p;
      var n := Existing(fs, p, |p|).value;
      if fs.canon(p[..n]).None? {
        q, rest := p, [];
        assert q + rest == q;
      } else {
        q, rest := fs.canon(p[..n]).value, p[n..];
        if rest != [] {
          assert Child(p[..n], rest[0]) == p[..n + 1];
        }
      }
    }
  }

  /** A missing name below a canonical directory stays missing, with everything under it. */
  lemma MissingBelow(fs: Filesystem, q: Path, rest: seq<string>)
    requires Coherent(fs) && fs.canon(q) == Some(q) && rest != [] && !fs.present(Child(q, rest[0]))
    ensures fs.canon(q + rest) == None && ThroughAncestor(fs, q + rest) == q + rest
  {
    var r := q + rest;
    forall k | |q| < k <= |r| ensures r[..k][..|q| + 1] == Child(q, rest[0]) { }
    assert forall k :: |q| < k <= |r| ==> !fs.present(r[..k]);
    assert r[..|r|] == r;
    ExistingIsLongest(fs, r, |r|);
    assert r[..|q|] == q;
    assert r[|q|..] == rest;
  }

  /** Resolution is idempotent: a resolved path resolves to itself. */
  lemma RealIsFixed(fs: Filesystem, p: Path)
    requires Coherent(fs)
    ensures Real(fs, Real(fs, p)) == Real(fs, p)
    ensures fs.canon(Real(fs, p)).Some? ==> fs.canon(Real(fs, p)) == Some(Real(fs, p))
  {
    var q, rest := RealCases(fs, p);
    if rest == [] {
      assert q + rest == q;
    } else {
      MissingBelow(fs, q, rest);
    }
  }

  /** What a normal path without NUL resolves to is normal and without NUL. */
  lemma RealIsNormal(fs: Filesystem, p: Path)
    requires Coherent(fs) && Normal(p) && NulFree(p)
    ensures Normal(Real(fs, p)) && NulFree(Real(fs, p))
  {
    var q, rest := RealCases(fs, p);
    assert q + rest == Real(fs, p);
  }

  /** Resolution follows links: of an existing path, or of the longest existing part of a missing one. */
  lemma RealFollowsLinks(fs: Filesystem, p: Path, n: nat)
    requires n <= |p| && fs.present(p[..n]) && forall k :: n < k <= |p| ==> !fs.present(p[..k])
    ensures fs.canon(p).Some? ==> Real(fs, p) == fs.canon(p).value
    ensures fs.canon(p).None? && fs.canon(p[..n]).Some? ==> Real(fs, p) == fs.canon(p[..n]).value + p[n..]
    ensures fs.canon(p).None? && fs.canon(p[..n]).None? ==> Real(fs, p) == p
  {
    ExistingIsLongest(fs, p, |p|);
  }

  // ---------- sensitive directories ----------

  const CONFIG_DIR := ".zk"
  const SENSITIVE_READ: seq<string> := [".git", ".ssh", ".gnupg", ".aws", ".kube", ".docker", ".ai-code-assistant"]
  const SENSITIVE_WRITE: seq<string> :=
    [".git", ".vscode", ".idea", ".zk", ".zhikun", ".ai-code-assistant",
     ".ssh", ".gnupg", ".aws", ".config", ".kube", ".docker"]

  /**
   What the checks consult: targets never served, protected file names, sensitive user and system
   files, system directories, and the system scratchpad root as configured and as once resolved.
   */
  datatype Policy = Policy(
    deniedTarget: Path -> bool,
    protectedName: string -> bool,
    sensitiveFile: Path -> bool,
    criticalTarget: Path -> bool,
    scratchConfigured: Path,
    scratchCanonical: Path)

  predicate ScratchpadStable(fs: Filesystem, p: Policy) {
    ThroughAncestor(fs, p.scratchConfigured) == p.scratchCanonical
  }

  /** Only the exact scratchpad below a marker directory is exempt. */
  predicate Relaxed(fs: Filesystem, p: Policy, resolved: Path, marker: Path, outside: bool) {
    || (!outside && Child(marker, "scratchpad") <= resolved)
    || (ScratchpadStable(fs, p) && p.scratchCanonical <= ThroughAncestor(fs, resolved)
        && ThroughAncestor(fs, Child(marker, "scratchpad")) <= p.scratchCanonical)
  }

  predicate SensitiveAt(fs: Filesystem, p: Policy, resolved: Path, outside: bool, directory: string, i: nat)
    requires i < |resolved|
  {
    && SameIgnoringCase(resolved[i], directory)
    && !(SameIgnoringCase(directory, CONFIG_DIR) && Relaxed(fs, p, resolved, resolved[..i + 1], outside))
  }

  predicate SensitiveRoot(fs: Filesystem, p: Policy, resolved: Path, root: Path, directory: string) {
    && root != [] && SameIgnoringCase(root[|root| - 1], directory)
    && !(SameIgnoringCase(directory, CONFIG_DIR) && Relaxed(fs, p, resolved, root, false))
  }

  predicate SensitiveBelow(fs: Filesystem, p: Policy, resolved: Path, start: nat, outside: bool, directory: string) {
    exists i :: start <= i < |resolved| && SensitiveAt(fs, p, resolved, outside, directory, i)
  }

  /** Inside the project its own name and the components below it count, outside every component does. */
  predicate InSensitiveDirectory(fs: Filesystem, p: Policy, resolved: Path, root: Path, dirs: seq<string>) {
    var outside := !(root <= resolved);
    exists d :: 0 <= d < |dirs| &&
      ((!outside && SensitiveRoot(fs, p, resolved, root, dirs[d]))
       || SensitiveBelow(fs, p, resolved, if outside then 0 else |root|, outside, dirs[d]))
  }

  method IsSensitiveComponent(fs: Filesystem, p: Policy, resolved: Path, i: nat, outside: bool, directory: string)
    returns (hit: bool)
    requires i < |resolved|
    ensures hit == SensitiveAt(fs, p, resolved, outside, directory, i)
  {
    if !SameIgnoringCase(resolved[i], directory) { return false; }
    if SameIgnoringCase(directory, CONFIG_DIR) && Relaxed(fs, p, resolved, resolved[..i + 1], outside) { return false; }
    return true;
  }

  /** One directory name searched along the path. */
  method ContainsUnrelaxedSensitiveComponent(fs: Filesystem, p: Policy, resolved: Path, start: nat, outside: bool,
      directory: string)
    returns (found: bool)
    requires start <= |resolved|
    ensures found == SensitiveBelow(fs, p, resolved, start, outside, directory)
  {
    for i := start to |resolved|
      invariant forall k :: start <= k < i ==> !SensitiveAt(fs, p, resolved, outside, directory, k)
    {
      var hit := IsSensitiveComponent(fs, p, resolved, i, outside, directory);
      if hit { return true; }
    }
    return false;
  }

  /** The root's own name first, then each directory name along the rest. */
  method MatchingSensitiveDirectory(fs: Filesystem, p: Policy, resolved: Path, root: Path, dirs: seq<string>)
      returns (found: bool)
    ensures found == InSensitiveDirectory(fs, p, resolved, root, dirs)
  {
    var outside := !(root <= resolved);
    if !outside {
      for d := 0 to |dirs|
        invariant forall k :: 0 <= k < d ==> !SensitiveRoot(fs, p, resolved, root, dirs[k])
      {
        if root == [] || !SameIgnoringCase(root[|root| - 1], dirs[d]) { continue; }
        if SameIgnoringCase(dirs[d], CONFIG_DIR) && Relaxed(fs, p, resolved, root, false) { continue; }
        return true;
      }
    }
    var start := if outside then 0 else |root|;
    for d := 0 to |dirs|
      invariant forall k :: 0 <= k < d ==> !SensitiveBelow(fs, p, resolved, start, outside, dirs[k])
    {
      var hit := ContainsUnrelaxedSensitiveComponent(fs, p, resolved, start, outside, dirs[d]);
      if hit { return true; }
    }
    return false;
  }

  // ---------- permission checks ----------

  datatype Check = Denied | NeedsConfirmation | Allowed

  predicate ProtectedName(p: Policy, path: Path) { path != [] && p.protectedName(path[|path| - 1]) }

  predicate BoundaryHolds(fs: Filesystem, root: Path) { fs.canon(root) == Some(root) }

  function ReadCheck(fs: Filesystem, p: Policy, resolved: Path, lexical: Path, root: Path): Check {
    if p.deniedTarget(resolved) then Denied
    else if !BoundaryHolds(fs, root) then Denied
    else if ProtectedName(p, resolved) || ProtectedName(p, lexical) then NeedsConfirmation
    else if || InSensitiveDirectory(fs, p, resolved, root, SENSITIVE_READ)
            || (lexical != resolved && InSensitiveDirectory(fs, p, lexical, root, SENSITIVE_READ))
         then NeedsConfirmation
    else if p.sensitiveFile(resolved) then NeedsConfirmation
    else Allowed
  }

  /** The stricter check of a write; a link at the resolved place is followed once more. */
  function WriteCheck(fs: Filesystem, p: Policy, resolved: Path, lexical: Path, root: Path): Check {
    var read := ReadCheck(fs, p, resolved, lexical, root);
    if read == Denied then Denied
    else if || InSensitiveDirectory(fs, p, resolved, root, SENSITIVE_WRITE)
            || (lexical != resolved && InSensitiveDirectory(fs, p, lexical, root, SENSITIVE_WRITE))
         then NeedsConfirmation
    else if p.criticalTarget(resolved) then NeedsConfirmation
    else if fs.isSymlink(resolved) && fs.canon(resolved).Some? && p.deniedTarget(fs.canon(resolved).value) then Denied
    else if fs.isSymlink(resolved) && fs.canon(resolved).Some? && ProtectedName(p, fs.canon(resolved).value) then
      NeedsConfirmation
    else read
  }

  function PathCheck(fs: Filesystem, p: Policy, write: bool, lexical: Path, root: Path): Check {
    var resolved := Real(fs, lexical);
    if write then WriteCheck(fs, p, resolved, lexical, root) else ReadCheck(fs, p, resolved, lexical, root)
  }

  // ---------- what needs confirmation ----------

  /** A component that marks what lies below it as sensitive, whatever the case of its letters. */
  predicate NamesOneOf(component: string, dirs: seq<string>) {
    exists d :: 0 <= d < |dirs| && SameIgnoringCase(component, dirs[d])
  }

  /** Sensitive for reading, by either spelling. */
  predicate ReadSensitive(fs: Filesystem, p: Policy, lexical: Path, root: Path) {
    InSensitiveDirectory(fs, p, Real(fs, lexical), root, SENSITIVE_READ)
    || InSensitiveDirectory(fs, p, lexical, root, SENSITIVE_READ)
  }

  predicate WriteSensitive(fs: Filesystem, p: Policy, lexical: Path, root: Path) {
    InSensitiveDirectory(fs, p, Real(fs, lexical), root, SENSITIVE_WRITE)
    || InSensitiveDirectory(fs, p, lexical, root, SENSITIVE_WRITE)
  }

  /** The outcome of both checks, by what the target is. */
  lemma ChecksExactly(fs: Filesystem, p: Policy, write: bool, lexical: Path, root: Path)
    requires Coherent(fs)
    ensures var target := Real(fs, lexical);
      && (PathCheck(fs, p, write, lexical, root) == Denied <==> p.deniedTarget(target) || fs.canon(root) != Some(root))
      && (PathCheck(fs, p, write, lexical, root) == Allowed <==>
            && !p.deniedTarget(target) && fs.canon(root) == Some(root)
            && !ProtectedName(p, target) && !ProtectedName(p, lexical) && !p.sensitiveFile(target)
            && !ReadSensitive(fs, p, lexical, root)
            && (write ==> !WriteSensitive(fs, p, lexical, root) && !p.criticalTarget(target)))
  {
    LinkTestNeverFires(fs, lexical);
  }

  /**
   Nothing below a sensitive directory is read or written without confirmation: outside the root every
   component counts, inside those below it. Only the scratchpad below the configuration directory is exempt.
   */
  lemma SensitiveIsNeverSilent(fs: Filesystem, p: Policy, write: bool, lexical: Path, root: Path, i: nat)
    requires Coherent(fs)
    requires var target := Real(fs, lexical);
      i < |target| && (root <= target ==> |root| <= i)
      && (NamesOneOf(target[i], [".git", ".ssh", ".gnupg", ".aws", ".kube", ".docker", ".ai-code-assistant"])
          || (write && NamesOneOf(target[i], [".vscode", ".idea", ".zhikun", ".config"])))
    ensures PathCheck(fs, p, write, lexical, root) != Allowed
  {
    ChecksExactly(fs, p, write, lexical, root);
    var target := Real(fs, lexical);
    if NamesOneOf(target[i], [".git", ".ssh", ".gnupg", ".aws", ".kube", ".docker", ".ai-code-assistant"]) {
      SensitiveComponent(fs, p, target, root, i, SENSITIVE_READ);
    } else {
      ListedInBoth(target[i]);
      SensitiveComponent(fs, p, target, root, i, SENSITIVE_WRITE);
    }
  }

  /**
   The configuration directory is sensitive for writing like the rest, but for its scratchpad: inside the
   project that below the marker itself, and the system's own where it resolves as configured.
   */
  lemma ConfigurationIsExemptExactly(fs: Filesystem, p: Policy, target: Path, root: Path, i: nat)
    requires i < |target| && SameIgnoringCase(target[i], CONFIG_DIR)
    ensures var outside := !(root <= target);
      var marker := target[..i + 1];
      SensitiveAt(fs, p, target, outside, CONFIG_DIR, i) <==>
        && (root <= target ==> !(marker + ["scratchpad"] <= target))
        && (ThroughAncestor(fs, p.scratchConfigured) == p.scratchCanonical ==>
              !(ThroughAncestor(fs, marker + ["scratchpad"]) <= p.scratchCanonical)
              || !(p.scratchCanonical <= ThroughAncestor(fs, target)))
  {
    assert SameIgnoringCase(CONFIG_DIR, CONFIG_DIR);
  }

  lemma ListedInBoth(component: string)
    requires NamesOneOf(component, [".vscode", ".idea", ".zhikun", ".config"])
    ensures exists d :: 0 <= d < |SENSITIVE_WRITE| && SameIgnoringCase(component, SENSITIVE_WRITE[d])
                        && !SameIgnoringCase(SENSITIVE_WRITE[d], CONFIG_DIR)
  {
    var some := [".vscode", ".idea", ".zhikun", ".config"];
    var d :| 0 <= d < |some| && SameIgnoringCase(component, some[d]);
    var at := if d == 0 then 1 else if d == 1 then 2 else if d == 2 then 4 else 9;
    assert SENSITIVE_WRITE[at] == some[d];
    assert |SENSITIVE_WRITE[at]| != |CONFIG_DIR|;
  }

  lemma SensitiveComponent(fs: Filesystem, p: Policy, target: Path, root: Path, i: nat, dirs: seq<string>)
    requires i < |target| && (root <= target ==> |root| <= i)
    requires exists d :: 0 <= d < |dirs| && SameIgnoringCase(target[i], dirs[d])
                         && !SameIgnoringCase(dirs[d], CONFIG_DIR)
    ensures InSensitiveDirectory(fs, p, target, root, dirs)
  {
    var outside := !(root <= target);
    var d :| 0 <= d < |dirs| && SameIgnoringCase(target[i], dirs[d]) && !SameIgnoringCase(dirs[d], CONFIG_DIR);
    assert SensitiveAt(fs, p, target, outside, dirs[d], i);
    assert SensitiveBelow(fs, p, target, if outside then 0 else |root|, outside, dirs[d]);
  }

  /** The link test of a write never fires: what resolution returns is not a resolvable link. */
  lemma LinkTestNeverFires(fs: Filesystem, lexical: Path)
    requires Coherent(fs)
    ensures !(fs.isSymlink(Real(fs, lexical)) && fs.canon(Real(fs, lexical)).Some?)
  {
    RealIsFixed(fs, lexical);
  }

  /**
   The requested spelling can only add confirmations: checking the resolved target under its own
   name is not denied if the first check was not, and needs confirmation only if the first did.
   */
  lemma ResolvedNameChecksNoWorse(fs: Filesystem, p: Policy, write: bool, lexical: Path, root: Path)
    requires Coherent(fs)
    ensures PathCheck(fs, p, write, lexical, root) != Denied ==>
        PathCheck(fs, p, write, Real(fs, lexical), root) != Denied
    ensures PathCheck(fs, p, write, Real(fs, lexical), root) == NeedsConfirmation ==>
              PathCheck(fs, p, write, lexical, root) == NeedsConfirmation
  {
    RealIsFixed(fs, lexical);
    LinkTestNeverFires(fs, lexical);
  }
}
