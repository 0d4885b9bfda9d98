/** Lexical paths (crates/zk-authz/src/workspace.rs, absolute_normalized). */
module Paths {
  import opened AuthzModel
  import opened Segments
  import opened Constraints

  /** One component applied to a path being built; `..` above the root is dropped. */
  function Step(out: Path, component: string): Path {
    if component == "" || component == "." then out
    else if component == ".." then if out == [] then [] else out[..|out| - 1]
    else out + [component]
  }

  function Walk(out: Path, components: seq<string>): Path
    decreases |components|
  {
    if components == [] then out else Walk(Step(out, components[0]), components[1..])
  }

  predicate IsAbsolute(text: string) { text != [] && text[0] == SLASH }

  /** The normalized target of a path text, taken from base when it is relative. */
  function Resolve(base: Path, text: string): Path {
    Walk(if IsAbsolute(text) then [] else base, Split(text, SLASH))
  }

  /** A name a normalized path may hold. */
  predicate NormalName(n: string) { n != "" && n != "." && n != ".." && Free(n, SLASH) }

  predicate Normal(p: Path) { forall i :: 0 <= i < |p| ==> NormalName(p[i]) }

  lemma {:induction false} WalkIsNormal(out: Path, components: seq<string>)
    requires Normal(out) && forall i :: 0 <= i < |components| ==> Free(components[i], SLASH)
    ensures Normal(Walk(out, components))
    decreases |components|
  {
    if components != [] {
      WalkIsNormal(Step(out, components[0]), components[1..]);
    }
  }

  lemma ResolveIsNormal(base: Path, text: string)
    requires Normal(base)
    ensures Normal(Resolve(base, text))
  {
    JoinSplit(text, SLASH);
    WalkIsNormal(if IsAbsolute(text) then [] else base, Split(text, SLASH));
  }

  /** Walking names that are already normal only appends them. */
  lemma {:induction false} WalkNormal(out: Path, p: Path)
    requires Normal(p)
    ensures Walk(out, p) == out + p
    decreases |p|
  {
    if p == [] {
      assert out + p == out;
    } else {
      assert NormalName(p[0]);
      WalkNormal(out + [p[0]], p[1..]);
      assert (out + [p[0]]) + p[1..] == out + p;
    }
  }

  /** A dot stays, two dots go up one name and stop at the root, an empty component is nothing. */
  lemma DotsMoveExactly(out: Path, name: string)
    requires NormalName(name)
    ensures Walk(out, ["."]) == out && Walk(out, [""]) == out && Walk(out, [name]) == out + [name]
    ensures Walk(out + [name], [".."]) == out && Walk([], [".."]) == []
  {
    assert ["."][1..] == [] && [""][1..] == [] && [name][1..] == [] && [".."][1..] == [];
  }

  /** Pushes and pops one component at a time on a mutable path. */
  method AbsoluteNormalized(base: Path, text: string) returns (out: Path)
    ensures out == Resolve(base, text)
  {
    out := if IsAbsolute(text) then [] else base;
    var components := Split(text, SLASH);
    ghost var start := out;
    for i := 0 to |components|
      invariant Walk(out, components[i..]) == Walk(start, components)
    {
      assert components[i..][1..] == components[i + 1..];
      assert components[i..][0] == components[i];
      if components[i] == "" || components[i] == "." {
      } else if components[i] == ".." {
        if out != [] { out := out[..|out| - 1]; }
      } else {
        out := out + [components[i]];
      }
    }
  }

  /** The text of a normalized absolute path. */
  function TextOfPath(p: Path): string { if p == [] then "/" else "/" + Join(p, SLASH) }

  /** Printing a normal path and reading it back gives the path. */
  lemma PathTextRoundTrip(base: Path, p: Path)
    requires Normal(p)
    ensures Resolve(base, TextOfPath(p)) == p
  {
    if p == [] {
      assert Split("/", SLASH) == Split("", SLASH) + Split("", SLASH) by {
        assert "" + [SLASH] + "" == "/";
        SplitConcat("", "", SLASH);
      }
      assert Split("/", SLASH) == ["", ""];
      assert ["", ""][1..] == [""];
      assert Walk([], [""]) == [];
    } else {
      var body := Join(p, SLASH);
      SplitJoin(p, SLASH);
      assert "" + [SLASH] + body == "/" + body;
      SplitConcat("", body, SLASH);
      assert Split("/" + body, SLASH) == [""] + p;
      assert ([""] + p)[1..] == p;
      WalkNormal([], p);
    }
  }

  /** Joining a relative text of normal names onto a root appends those names. */
  lemma RelativeTextRoundTrip(base: Path, p: Path)
    requires Normal(p) && p != []
    ensures Resolve(base, Join(p, SLASH)) == base + p
  {
    SplitJoin(p, SLASH);
    assert NormalName(p[0]);
    assert Join(p, SLASH)[0] == p[0][0];
    WalkNormal(base, p);
  }
}
