/**
 Strict total orders, and the one canonical list that a set of facts has under
 such an order: no element twice, every element below its successor.
 */
module Ordering {

  ghost predicate StrictTotal<T(!new)>(less: (T, T) -> bool) {
    && (forall x :: !less(x, x))
    && (forall x, y :: x != y ==> less(x, y) || less(y, x))
    && (forall x, y, z :: less(x, y) && less(y, z) ==> less(x, z))
  }

  predicate StrictlySorted<T(!new)>(less: (T, T) -> bool, s: seq<T>) {
    forall i, j :: 0 <= i < j < |s| ==> less(s[i], s[j])
  }

  ghost predicate SameElements<T(!new)>(a: seq<T>, b: seq<T>) {
    forall x :: x in a <==> x in b
  }

  /** Puts x at its place in a sorted list; an element already there is kept once. */
  function Insert<T(!new,==)>(less: (T, T) -> bool, x: T, s: seq<T>): seq<T> {
    if s == [] then [x]
    else if s[0] == x then s
    else if less(x, s[0]) then [x] + s
    else [s[0]] + Insert(less, x, s[1..])
  }

  function Canonical<T(!new,==)>(less: (T, T) -> bool, values: seq<T>): seq<T> {
    if values == [] then [] else Insert(less, values[0], Canonical(less, values[1..]))
  }

  lemma {:induction false} InsertKeepsOrder<T(!new)>(less: (T, T) -> bool, x: T, s: seq<T>)
    requires StrictTotal(less) && StrictlySorted(less, s)
    ensures StrictlySorted(less, Insert(less, x, s))
    ensures forall y :: y in Insert(less, x, s) <==> y == x || y in s
  {
    if s == [] || s[0] == x {
    } else if less(x, s[0]) {
    } else {
      InsertKeepsOrder(less, x, s[1..]);
      assert s == [s[0]] + s[1..];
      var rest := Insert(less, x, s[1..]);
      forall y | y in rest ensures less(s[0], y) {
        if y != x {
          var i :| 0 <= i < |s[1..]| && s[1..][i] == y;
          assert less(s[0], s[i + 1]);
        }
      }
    }
  }

  /** The canonical list is strictly increasing and keeps exactly the given elements. */
  lemma {:induction false} CanonicalIsSortedSet<T(!new)>(less: (T, T) -> bool, values: seq<T>)
    requires StrictTotal(less)
    ensures StrictlySorted(less, Canonical(less, values))
    ensures SameElements(Canonical(less, values), values)
  {
    if values != [] {
      CanonicalIsSortedSet(less, values[1..]);
      InsertKeepsOrder(less, values[0], Canonical(less, values[1..]));
      assert values == [values[0]] + values[1..];
    }
  }

  /** Two strictly increasing lists over the same elements are the same list. */
  lemma {:induction false} SortedSetIsUnique<T(!new)>(less: (T, T) -> bool, a: seq<T>, b: seq<T>)
    requires StrictTotal(less) && StrictlySorted(less, a) && StrictlySorted(less, b)
    requires SameElements(a, b)
    ensures a == b
  {
    assert b != [] ==> b[0] in b;
    if a != [] {
      assert a[0] in b;
      assert b[0] in a;
      assert a[0] == b[0];
      forall x ensures x in a[1..] <==> x in b[1..] {
        assert x in a[1..] ==> x in a && x != a[0];
        assert x in b[1..] ==> x in b && x != b[0];
        assert x in a && x != a[0] ==> x in a[1..];
        assert x in b && x != b[0] ==> x in b[1..];
      }
      SortedSetIsUnique(less, a[1..], b[1..]);
      assert a == [a[0]] + a[1..] && b == [b[0]] + b[1..];
    }
  }

  /** The canonical form depends on the set of facts only, not on how it was listed. */
  lemma CanonicalDependsOnSet<T(!new)>(less: (T, T) -> bool, a: seq<T>, b: seq<T>)
    requires StrictTotal(less) && SameElements(a, b)
    ensures Canonical(less, a) == Canonical(less, b)
  {
    CanonicalIsSortedSet(less, a);
    CanonicalIsSortedSet(less, b);
    SortedSetIsUnique(less, Canonical(less, a), Canonical(less, b));
  }

  /** A list is its own canonical form exactly when it is strictly increasing. */
  lemma CanonicalFixpoint<T(!new)>(less: (T, T) -> bool, values: seq<T>)
    requires StrictTotal(less)
    ensures Canonical(less, values) == values <==> StrictlySorted(less, values)
  {
    CanonicalIsSortedSet(less, values);
    if StrictlySorted(less, values) {
      SortedSetIsUnique(less, Canonical(less, values), values);
    }
  }

  /** Deduplicates by pushing unseen elements, then sorts in place by insertion. */
  method Canonicalize<T(!new,==)>(less: (T, T) -> bool, values: seq<T>) returns (out: seq<T>)
    requires StrictTotal(less)
    ensures StrictlySorted(less, out) && SameElements(out, values)
    ensures out == Canonical(less, values)
  {
    out := [];
    for i := 0 to |values|
      invariant SameElements(out, values[..i])
    {
      assert values[..i + 1] == values[..i] + [values[i]];
      if values[i] !in out {
        out := out + [values[i]];
      }
    }
    assert values[..|values|] == values;
    var sorted := [];
    for i := 0 to |out|
      invariant StrictlySorted(less, sorted) && SameElements(sorted, out[..i])
    {
      InsertKeepsOrder(less, out[i], sorted);
      sorted := Insert(less, out[i], sorted);
      assert out[..i + 1] == out[..i] + [out[i]];
    }
    assert out[..|out|] == out;
    out := sorted;
    CanonicalIsSortedSet(less, values);
    SortedSetIsUnique(less, out, Canonical(less, values));
  }

  // ---------- text order ----------

  /** Code-point order on text, which is also the byte order of its UTF-8 form. */
  predicate TextLess(a: string, b: string) {
    if b == [] then false
    else if a == [] then true
    else if a[0] != b[0] then a[0] < b[0]
    else TextLess(a[1..], b[1..])
  }

  lemma {:induction false} TextTotal(a: string, b: string)
    ensures a != b ==> TextLess(a, b) || TextLess(b, a)
    ensures !(TextLess(a, b) && TextLess(b, a))
    ensures a == b ==> !TextLess(a, b)
  {
    if a != [] && b != [] && a[0] == b[0] {
      TextTotal(a[1..], b[1..]);
      assert a == [a[0]] + a[1..] && b == [b[0]] + b[1..];
    }
  }

  lemma {:induction false} TextTransitive(a: string, b: string, c: string)
    requires TextLess(a, b) && TextLess(b, c)
    ensures TextLess(a, c)
  {
    if a != [] && a[0] == b[0] == c[0] {
      TextTransitive(a[1..], b[1..], c[1..]);
    }
  }

  lemma TextStrictTotal()
    ensures StrictTotal(TextLess)
  {
    forall a, b ensures a != b ==> TextLess(a, b) || TextLess(b, a) { TextTotal(a, b); }
    forall a ensures !TextLess(a, a) { TextTotal(a, a); }
    forall a, b, c | TextLess(a, b) && TextLess(b, c) ensures TextLess(a, c) { TextTransitive(a, b, c); }
  }

  /** The texts of a set in order. */
  ghost function Sorted(ids: set<string>): (r: seq<string>)
    ensures StrictlySorted(TextLess, r) && forall x :: x in r <==> x in ids
  {
    SortedExists(ids);
    var r :| StrictlySorted(TextLess, r) && forall x :: x in r <==> x in ids;
    r
  }

  lemma {:induction false} SortedExists(ids: set<string>)
    ensures exists r :: StrictlySorted(TextLess, r) && forall x :: x in r <==> x in ids
    decreases |ids|
  {
    TextStrictTotal();
    if ids == {} {
      assert StrictlySorted(TextLess, []);
    } else {
      var x :| x in ids;
      SortedExists(ids - {x});
      var r :| StrictlySorted(TextLess, r) && forall y :: y in r <==> y in ids - {x};
      InsertKeepsOrder(TextLess, x, r);
      assert StrictlySorted(TextLess, Insert(TextLess, x, r));
    }
  }

  lemma {:induction false} SortedLength(ids: set<string>, r: seq<string>)
    requires StrictlySorted(TextLess, r) && forall x :: x in r <==> x in ids
    ensures |r| == |ids|
    decreases |r|
  {
    TextStrictTotal();
    if r == [] {
      assert ids == {};
    } else {
      var n := |r| - 1;
      assert r == r[..n] + [r[n]];
      assert forall i :: 0 <= i < n ==> r[i] != r[n];
      SortedLength(ids - {r[n]}, r[..n]);
    }
  }
}
