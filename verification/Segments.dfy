/** A sequence cut at a separator: splitting and joining are inverse. */
module Segments {

  predicate Free<T(==)>(s: seq<T>, c: T) { forall i :: 0 <= i < |s| ==> s[i] != c }

  function Split<T(==)>(s: seq<T>, c: T): (r: seq<seq<T>>)
    ensures |r| >= 1
  {
    if s == [] then [[]]
    else
      var r := Split(s[1..], c);
      if s[0] == c then [[]] + r else [[s[0]] + r[0]] + r[1..]
  }

  function Join<T>(parts: seq<seq<T>>, c: T): seq<T>
    requires |parts| >= 1
  {
    if |parts| == 1 then parts[0] else parts[0] + [c] + Join(parts[1..], c)
  }

  lemma {:induction false} JoinSplit<T>(s: seq<T>, c: T)
    ensures Join(Split(s, c), c) == s
    ensures forall i :: 0 <= i < |Split(s, c)| ==> Free(Split(s, c)[i], c)
  {
    if s != [] {
      var r := Split(s[1..], c);
      JoinSplit(s[1..], c);
      assert s == [s[0]] + s[1..];
      if s[0] == c {
        assert ([[]] + r)[1..] == r;
      } else {
        var t := [[s[0]] + r[0]] + r[1..];
        if |r| > 1 { assert t[1..] == r[1..]; }
        assert Free(t[0], c) by {
          assert Free(r[0], c);
        }
        forall i | 0 < i < |t| ensures Free(t[i], c) { assert t[i] == r[i]; }
      }
    }
  }

  lemma SplitCons<T>(x: T, s: seq<T>, c: T)
    ensures Split([x] + s, c) == if x == c then [[]] + Split(s, c) else [[x] + Split(s, c)[0]] + Split(s, c)[1..]
  {
    assert ([x] + s)[1..] == s;
  }

  /** Splitting p, a separator and q is splitting p and then q. */
  lemma {:induction false} SplitConcat<T>(p: seq<T>, q: seq<T>, c: T)
    ensures Split(p + [c] + q, c) == Split(p, c) + Split(q, c)
  {
    if p == [] {
      assert p + [c] + q == [c] + q;
      SplitCons(c, q, c);
    } else {
      var tail := p[1..] + [c] + q;
      assert p + [c] + q == [p[0]] + tail;
      assert p == [p[0]] + p[1..];
      SplitConcat(p[1..], q, c);
      SplitCons(p[0], tail, c);
      SplitCons(p[0], p[1..], c);
    }
  }

  lemma {:induction false} SplitFree<T>(s: seq<T>, c: T)
    requires Free(s, c)
    ensures Split(s, c) == [s]
  {
    if s != [] {
      assert Free(s[1..], c);
      SplitFree(s[1..], c);
      assert s == [s[0]] + s[1..];
    }
  }

  lemma {:induction false} SplitJoin<T>(parts: seq<seq<T>>, c: T)
    requires |parts| >= 1 && forall i :: 0 <= i < |parts| ==> Free(parts[i], c)
    ensures Split(Join(parts, c), c) == parts
  {
    SplitFree(parts[0], c);
    if |parts| > 1 {
      SplitJoin(parts[1..], c);
      SplitConcat(parts[0], Join(parts[1..], c), c);
      assert parts == [parts[0]] + parts[1..];
    } else {
      assert parts == [parts[0]];
    }
  }

  lemma {:induction false} JoinConcat<T>(a: seq<seq<T>>, b: seq<seq<T>>, c: T)
    requires |a| >= 1 && |b| >= 1
    ensures Join(a + b, c) == Join(a, c) + [c] + Join(b, c)
  {
    if |a| == 1 {
      assert (a + b)[1..] == b;
    } else {
      assert (a + b)[1..] == a[1..] + b;
      JoinConcat(a[1..], b, c);
      calc {
        Join(a + b, c);
        a[0] + [c] + (Join(a[1..], c) + [c] + Join(b, c));
        (a[0] + [c] + Join(a[1..], c)) + [c] + Join(b, c);
      }
    }
  }

  lemma PrefixOfSplit<T>(p: seq<T>, q: seq<T>, c: T)
    requires Split(p, c) <= Split(q, c)
    ensures p == q || p + [c] <= q
  {
    JoinSplit(p, c);
    JoinSplit(q, c);
    var sp, sq := Split(p, c), Split(q, c);
    if |sp| == |sq| {
      assert sp == sq;
    } else {
      var tail := sq[|sp|..];
      assert sq == sp + tail;
      JoinConcat(sp, tail, c);
    }
  }

  /** The segments of p begin those of q exactly when q is p or continues it after a separator. */
  lemma SplitPrefix<T>(p: seq<T>, q: seq<T>, c: T)
    ensures Split(p, c) <= Split(q, c) <==> p == q || p + [c] <= q
  {
    if p + [c] <= q {
      var tail := q[|p| + 1..];
      assert q == p + [c] + tail;
      SplitConcat(p, tail, c);
    }
    if Split(p, c) <= Split(q, c) {
      PrefixOfSplit(p, q, c);
    }
  }
}
