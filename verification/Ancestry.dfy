/**
 Resolving the authorization subject of a run (crates/zk-authz/src/subject.rs): a bounded walk
 up the parent links to the root run, behind a bounded cache.
 */
module Ancestry {
  import opened Wrappers
  import opened Cardinalities
  import opened AuthzModel
  import opened Constraints

  const MAX_DEPTH: nat := 32
  const MAX_CACHE_ENTRIES: nat := 4096
  const CACHE_TTL_MILLIS: int := 30 * 60 * 1000

  datatype RunRow = RunRow(session: string, parent: Option<string>)

  datatype Workspace = Workspace(key: string, authorizationRoot: Path)

  /** The rows the walk reads and the identity of a working directory, when it resolves. */
  datatype Database = Database(
    runs: map<string, RunRow>,
    workingDirs: map<string, Option<string>>,
    identify: string -> Option<Workspace>)

  datatype RootIdentity = RootIdentity(session: string, run: string, workspace: Workspace)

  datatype AncestryError =
    BlankRun | Cycle | MissingParent | RootSessionUnusable | TooDeep | WorkspaceUnresolved

  // ---------- the chain of ancestors ----------

  /** The runs visited from run upwards, at most n hops, ending early at a missing or parentless run. */
  function Chain(db: Database, run: string, n: nat): (c: seq<string>)
    ensures 1 <= |c| <= n + 1 && c[0] == run
    decreases n
  {
    if n == 0 || run !in db.runs || db.runs[run].parent.None? then [run]
    else [run] + Chain(db, db.runs[run].parent.value, n - 1)
  }

  predicate HasParent(db: Database, run: string) { run in db.runs && db.runs[run].parent.Some? }

  lemma {:induction false} ChainLinks(db: Database, run: string, n: nat)
    ensures var c := Chain(db, run, n);
      && (forall i :: 0 <= i < |c| - 1 ==> HasParent(db, c[i]) && db.runs[c[i]].parent.value == c[i + 1])
      && (|c| <= n ==> !HasParent(db, c[|c| - 1]))
    decreases n
  {
    var c := Chain(db, run, n);
    if |c| > 1 {
      var rest := Chain(db, db.runs[run].parent.value, n - 1);
      ChainLinks(db, db.runs[run].parent.value, n - 1);
      assert c == [run] + rest;
      forall i | 0 <= i < |c| - 1 ensures HasParent(db, c[i]) && db.runs[c[i]].parent.value == c[i + 1] {
        if i > 0 { assert c[i] == rest[i - 1] && c[i + 1] == rest[i]; }
      }
    }
  }

  /** Where a chain visits a run twice, it repeats from there on. */
  lemma {:induction false} ChainRepeats(db: Database, c: seq<string>, i: nat, j: nat, m: nat)
    requires i <= j && j + m < |c| && c[i] == c[j]
    requires forall k :: 0 <= k < |c| - 1 ==> HasParent(db, c[k]) && db.runs[c[k]].parent.value == c[k + 1]
    ensures c[i + m] == c[j + m]
    decreases m
  {
    if m > 0 { ChainRepeats(db, c, i, j, m - 1); }
  }

  predicate Distinct(c: seq<string>) { forall i, j :: 0 <= i < j < |c| ==> c[i] != c[j] }

  predicate Ends(db: Database, c: seq<string>) requires |c| > 0 { !HasParent(db, c[|c| - 1]) }

  /** A chain that ends visits no run twice. */
  lemma EndedChainIsDistinct(db: Database, run: string, n: nat)
    requires Ends(db, Chain(db, run, n))
    ensures Distinct(Chain(db, run, n))
  {
    var c := Chain(db, run, n);
    ChainLinks(db, run, n);
    forall i, j | 0 <= i < j < |c| ensures c[i] != c[j] {
      if c[i] == c[j] {
        ChainRepeats(db, c, i, j, |c| - 1 - j);
        assert false;
      }
    }
  }

  /** A chain that ends is the same under any larger bound, and its suffixes are the chains of its members. */
  lemma {:induction false} EndedChainSuffix(db: Database, run: string, n: nat, i: nat, m: nat)
    requires Ends(db, Chain(db, run, n)) && i < |Chain(db, run, n)| && m >= |Chain(db, run, n)| - 1 - i
    ensures Chain(db, Chain(db, run, n)[i], m) == Chain(db, run, n)[i..]
    decreases n + m + i
  {
    var c := Chain(db, run, n);
    if |c| == 1 {
    } else {
      var rest := Chain(db, db.runs[run].parent.value, n - 1);
      assert c == [run] + rest;
      if i > 0 {
        EndedChainSuffix(db, db.runs[run].parent.value, n - 1, i - 1, m);
        assert c[i..] == rest[i - 1..];
      } else {
        EndedChainSuffix(db, db.runs[run].parent.value, n - 1, 0, m - 1);
        assert c[0..] == c && rest[0..] == rest;
      }
    }
  }

  // ---------- the root of a run ----------

  /** The root session counts only when its working directory is recorded and resolves. */
  function RootOf(db: Database, run: string): Result<RootIdentity, AncestryError>
    requires run in db.runs
  {
    var session := db.runs[run].session;
    if session !in db.workingDirs || db.workingDirs[session].None? then Err(RootSessionUnusable)
    else
      match db.identify(db.workingDirs[session].value)
      case None => Err(WorkspaceUnresolved)
      case Some(w) => Ok(RootIdentity(session, run, w))
  }

  /** The walk without a bound on memory: the end of the chain decides, and only an endless one can be a cycle. */
  function RootFor(db: Database, run: string, n: nat): Result<RootIdentity, AncestryError> {
    var c := Chain(db, run, n);
    var last := c[|c| - 1];
    if last !in db.runs then Err(MissingParent)
    else if db.runs[last].parent.None? then RootOf(db, last)
    else if Distinct(c) then Err(TooDeep)
    else Err(Cycle)
  }

  /** Hop k of the parent links, when the rows reach that far. */
  function Hop(db: Database, run: string, k: nat): Option<string> {
    if k == 0 then Some(run)
    else match Hop(db, run, k - 1)
      case None => None
      case Some(r) => if r in db.runs then db.runs[r].parent else None
  }

  predicate Parentless(db: Database, run: string, k: nat) {
    var hop := Hop(db, run, k);
    hop.Some? && hop.value in db.runs && db.runs[hop.value].parent.None?
  }

  predicate RowMissing(db: Database, run: string, k: nat) {
    var hop := Hop(db, run, k);
    hop.Some? && hop.value !in db.runs
  }

  predicate Revisits(db: Database, run: string, i: nat, j: nat) {
    Hop(db, run, i).Some? && Hop(db, run, i) == Hop(db, run, j)
  }

  lemma {:induction false} ChainIsHops(db: Database, run: string, n: nat, k: nat)
    requires k <= n
    ensures var c := Chain(db, run, n);
      Hop(db, run, k) == if k < |c| then Some(c[k]) else None
  {
    var c := Chain(db, run, n);
    ChainLinks(db, run, n);
    if k > 0 {
      ChainIsHops(db, run, n, k - 1);
      if k < |c| {
        assert HasParent(db, c[k - 1]) && db.runs[c[k - 1]].parent.value == c[k];
      } else if k == |c| {
        assert !HasParent(db, c[|c| - 1]);
      }
    }
  }

  lemma HopsOfChain(db: Database, run: string, n: nat)
    ensures var c := Chain(db, run, n);
      && (forall k :: 0 <= k < |c| ==> Hop(db, run, k) == Some(c[k]))
      && (forall k :: |c| <= k <= n ==> Hop(db, run, k) == None)
      && (forall k :: 0 <= k < |c| - 1 ==> HasParent(db, c[k]))
      && (Ends(db, c) <==> Hop(db, run, n + 1).None?)
      && (!Ends(db, c) ==> |c| == n + 1)
  {
    var c := Chain(db, run, n);
    ChainLinks(db, run, n);
    forall k: nat | k <= n ensures Hop(db, run, k) == if k < |c| then Some(c[k]) else None {
      ChainIsHops(db, run, n, k);
    }
    assert Hop(db, run, n) == if n < |c| then Some(c[n]) else None;
  }

  /**
   The walk succeeds exactly when some run within n hops is a parentless row with a usable
   root session, and that run is the root; each error has its own exact cause.
   */
  lemma RootForExact(db: Database, run: string, n: nat)
    ensures RootFor(db, run, n).Ok? <==>
              exists k :: 0 <= k <= n && Parentless(db, run, k) && RootOf(db, Hop(db, run, k).value).Ok?
    ensures forall k :: 0 <= k <= n && Parentless(db, run, k) ==>
        RootFor(db, run, n) == RootOf(db, Hop(db, run, k).value)
    ensures RootFor(db, run, n) == Err(MissingParent) <==>
              exists k :: 0 <= k <= n && RowMissing(db, run, k)
    ensures RootFor(db, run, n) == Err(Cycle) <==>
              exists i, j :: 0 <= i < j <= n && Revisits(db, run, i, j)
    ensures RootFor(db, run, n) == Err(TooDeep) <==>
              && Hop(db, run, n + 1).Some?
              && forall i, j :: 0 <= i < j <= n ==> !Revisits(db, run, i, j)
  {
    var c := Chain(db, run, n);
    var end := |c| - 1;
    HopsOfChain(db, run, n);
    if Ends(db, c) {
      EndedChainIsDistinct(db, run, n);
      if c[end] in db.runs {
        assert Parentless(db, run, end);
      } else {
        assert RowMissing(db, run, end);
      }
    } else if !Distinct(c) {
      var i, j :| 0 <= i < j < |c| && c[i] == c[j];
      assert Revisits(db, run, i, j);
    }
  }

  /** Every run that the chain of a resolved run passes through has the same root. */
  lemma OneRootPerChain(db: Database, run: string, i: nat, n: nat)
    requires RootFor(db, run, n).Ok? && i < |Chain(db, run, n)|
    ensures RootFor(db, Chain(db, run, n)[i], n) == RootFor(db, run, n)
  {
    EndedChainSuffix(db, run, n, i, n);
  }

  /** Two resolved runs whose chains meet anywhere have one root. */
  lemma MeetingChainsShareRoot(db: Database, a: string, i: nat, b: string, j: nat, n: nat)
    requires RootFor(db, a, n).Ok? && RootFor(db, b, n).Ok?
    requires i < |Chain(db, a, n)| && j < |Chain(db, b, n)|
    requires Chain(db, a, n)[i] == Chain(db, b, n)[j]
    ensures RootFor(db, a, n) == RootFor(db, b, n)
  {
    OneRootPerChain(db, a, i, n);
    OneRootPerChain(db, b, j, n);
  }

  /** The run before the end of a longer chain still has a parent. */
  lemma LastBeforeEnd(db: Database, run: string, n: nat)
    requires |Chain(db, run, n + 1)| == n + 2
    ensures HasParent(db, Chain(db, run, n + 1)[n])
  {
    ChainLinks(db, run, n + 1);
  }

  /** One more run in front of a chain of full length exceeds the bound. */
  lemma LongerChainIsTooDeep(db: Database, child: string, n: nat)
    requires HasParent(db, child) && Ends(db, Chain(db, db.runs[child].parent.value, n))
    requires |Chain(db, db.runs[child].parent.value, n)| == n + 1
    ensures RootFor(db, child, n) == Err(TooDeep)
  {
    assert Chain(db, child, n + 1) == [child] + Chain(db, db.runs[child].parent.value, n);
    EndedChainIsDistinct(db, child, n + 1);
    ChainPrefix(db, child, n + 1, n);
    LastBeforeEnd(db, child, n);
  }

  /** One more run in front of a shorter chain changes nothing about its root. */
  lemma LongerChainKeepsRoot(db: Database, child: string, n: nat)
    requires HasParent(db, child) && Ends(db, Chain(db, db.runs[child].parent.value, n))
    requires |Chain(db, db.runs[child].parent.value, n)| <= n
    ensures RootFor(db, child, n) == RootFor(db, db.runs[child].parent.value, n)
  {
    EndedChainSuffix(db, db.runs[child].parent.value, n, 0, n - 1);
    assert Chain(db, child, n) == [child] + Chain(db, db.runs[child].parent.value, n);
  }

  /** A child of a resolved run resolves to the same root unless its own chain is one hop too long. */
  lemma ChildSharesRoot(db: Database, child: string, n: nat)
    requires HasParent(db, child) && RootFor(db, db.runs[child].parent.value, n).Ok?
    ensures RootFor(db, child, n) ==
            if |Chain(db, db.runs[child].parent.value, n)| <= n then
              RootFor(db, db.runs[child].parent.value, n)
            else Err(TooDeep)
  {
    if |Chain(db, db.runs[child].parent.value, n)| <= n {
      LongerChainKeepsRoot(db, child, n);
    } else {
      LongerChainIsTooDeep(db, child, n);
    }
  }

  lemma {:induction false} ChainPrefix(db: Database, run: string, n: nat, m: nat)
    requires m <= n
    ensures var whole := Chain(db, run, n);
            Chain(db, run, m) == whole[..if m + 1 <= |whole| then m + 1 else |whole|]
    decreases n
  {
    if m > 0 && HasParent(db, run) {
      ChainPrefix(db, db.runs[run].parent.value, n - 1, m - 1);
    }
  }

  // ---------- the cache ----------

  datatype Entry = Entry(touched: int, root: RootIdentity)

  type Cache = map<string, Entry>

  predicate Live(cache: Cache, run: string, now: int) {
    run in cache && now - cache[run].touched <= CACHE_TTL_MILLIS
  }

  /** A hit renews the entry, an expired entry is dropped. */
  function AfterLookup(cache: Cache, run: string, now: int): Cache {
    if Live(cache, run, now) then cache[run := cache[run].(touched := now)] else cache - {run}
  }

  predicate Oldest(cache: Cache, run: string) {
    run in cache && forall r :: r in cache ==> cache[run].touched <= cache[r].touched
  }

  /** Storing makes room first, at the cost of the entry untouched for longest. */
  ghost predicate Stored(cache: Cache, run: string, now: int, root: RootIdentity, next: Cache) {
    if |cache| < MAX_CACHE_ENTRIES then next == cache[run := Entry(now, root)]
    else exists gone :: Oldest(cache, gone) && next == (cache - {gone})[run := Entry(now, root)]
  }

  /** A hit lives on for the whole time from now, a miss leaves nothing behind, and no other entry changes. */
  lemma LookupRenewsExactly(cache: Cache, run: string, now: int, later: int)
    ensures Live(cache, run, now) ==>
              (Live(AfterLookup(cache, run, now), run, later) <==> later <= now + 30 * 60 * 1000)
    ensures !Live(cache, run, now) ==> run !in AfterLookup(cache, run, now)
    ensures forall r :: r != run ==>
              (r in AfterLookup(cache, run, now) <==> r in cache)
              && (r in cache ==> AfterLookup(cache, run, now)[r] == cache[r])
  {
  }

  ghost predicate CacheValid(db: Database, n: nat, cache: Cache) {
    && |cache| <= MAX_CACHE_ENTRIES
    && forall run :: run in cache ==> RootFor(db, run, n) == Ok(cache[run].root)
  }

  lemma MapSizes<K, V>(m: map<K, V>, k: K, v: V)
    ensures |m[k := v]| <= |m| + 1
    ensures k in m ==> |m - {k}| == |m| - 1
  {
    assert m[k := v].Keys == m.Keys + {k};
    assert (m - {k}).Keys == m.Keys - {k};
  }

  lemma StoringKeepsBound(cache: Cache, run: string, now: int, root: RootIdentity, next: Cache)
    requires |cache| <= MAX_CACHE_ENTRIES && Stored(cache, run, now, root, next)
    ensures |next| <= MAX_CACHE_ENTRIES && run in next && next[run].root == root
    ensures forall r :: r in next && r != run ==> r in cache && next[r] == cache[r]
  {
    if |cache| < MAX_CACHE_ENTRIES {
      MapSizes(cache, run, Entry(now, root));
    } else {
      var gone :| Oldest(cache, gone) && next == (cache - {gone})[run := Entry(now, root)];
      MapSizes(cache, gone, cache[gone]);
      MapSizes(cache - {gone}, run, Entry(now, root));
    }
  }

  lemma StoringKeepsValid(db: Database, n: nat, cache: Cache, run: string, now: int, root: RootIdentity, next: Cache)
    requires CacheValid(db, n, cache) && RootFor(db, run, n) == Ok(root) && Stored(cache, run, now, root, next)
    ensures CacheValid(db, n, next)
  {
    StoringKeepsBound(cache, run, now, root, next);
    forall r | r in next ensures RootFor(db, r, n) == Ok(next[r].root) {
      assert r == run || (r in cache && next[r] == cache[r]);
    }
  }

  /** The three lock sections: concurrent resolutions interleave between them, never inside. */
  datatype CacheStep =
    | LookUp(run: string, now: int)
    | Remember(run: string, now: int, next: Cache)
    | Clear

  ghost predicate CacheNext(db: Database, n: nat, cache: Cache, step: CacheStep, after: Cache) {
    match step
    case LookUp(run, now) => after == AfterLookup(cache, run, now)
    case Remember(run, now, next) =>
      RootFor(db, run, n).Ok? && Stored(cache, run, now, RootFor(db, run, n).value, next) && after == next
    case Clear => after == map[]
  }

  ghost predicate CacheTrace(db: Database, n: nat, states: seq<Cache>, steps: seq<CacheStep>) {
    && |states| == |steps| + 1 && states[0] == map[]
    && (forall i :: 0 <= i < |steps| ==> CacheNext(db, n, states[i], steps[i], states[i + 1]))
  }

  lemma LookupKeepsValid(db: Database, n: nat, cache: Cache, run: string, now: int)
    requires CacheValid(db, n, cache)
    ensures CacheValid(db, n, AfterLookup(cache, run, now))
  {
    var after := AfterLookup(cache, run, now);
    assert after.Keys <= cache.Keys;
    SubsetSize(after.Keys, cache.Keys);
    forall r | r in after ensures RootFor(db, r, n) == Ok(after[r].root) {
      assert after[r].root == cache[r].root;
    }
  }

  lemma CacheStepKeepsValid(db: Database, n: nat, cache: Cache, step: CacheStep, after: Cache)
    requires CacheValid(db, n, cache) && CacheNext(db, n, cache, step, after)
    ensures CacheValid(db, n, after)
  {
    match step
    case LookUp(run, now) => LookupKeepsValid(db, n, cache, run, now);
    case Remember(run, now, next) => StoringKeepsValid(db, n, cache, run, now, RootFor(db, run, n).value, next);
    case Clear =>
  }

  /**
   While ancestry does not change, every interleaving of lookups, stores and clears keeps the
   cache within bounds and in agreement with the walk.
   */
  lemma {:induction false} CacheAgreesWithWalk(db: Database, n: nat, states: seq<Cache>, steps: seq<CacheStep>, at: nat)
    requires CacheTrace(db, n, states, steps) && at <= |steps|
    ensures CacheValid(db, n, states[at])
    decreases at
  {
    if at > 0 {
      CacheAgreesWithWalk(db, n, states, steps, at - 1);
      CacheStepKeepsValid(db, n, states[at - 1], steps[at - 1], states[at]);
    }
  }

  /** A hit on a cache reached in this way answers what the walk would. */
  lemma HitIsTheWalk(db: Database, n: nat, states: seq<Cache>, steps: seq<CacheStep>, at: nat, run: string, now: int)
    requires CacheTrace(db, n, states, steps) && at <= |steps| && Live(states[at], run, now)
    ensures RootFor(db, run, n) == Ok(states[at][run].root)
  {
    CacheAgreesWithWalk(db, n, states, steps, at);
  }

  /**
   Whatever the cache held and whatever ancestry it came from: from a clear on, with the walks
   stored since then made on the present ancestry, it agrees with that ancestry again.
   */
  lemma ClearForgets(db: Database, n: nat, states: seq<Cache>, steps: seq<CacheStep>, cleared: nat, at: nat)
    requires |states| == |steps| + 1 && cleared < at <= |steps| && steps[cleared] == Clear
    requires forall i :: cleared <= i < at ==> CacheNext(db, n, states[i], steps[i], states[i + 1])
    ensures CacheValid(db, n, states[at])
    ensures forall run, now :: Live(states[at], run, now) ==> RootFor(db, run, n) == Ok(states[at][run].root)
  {
    var later, since := states[cleared + 1..at + 1], steps[cleared + 1..at];
    assert later[0] == map[];
    CacheAgreesWithWalk(db, n, later, since, |since|);
  }

  class AuthorizationSubjectResolver {
    var cache: Cache

    constructor ()
      ensures cache == map[]
    {
      cache := map[];
    }

    method Cached(run: string, now: int) returns (hit: Option<RootIdentity>)
      modifies this
      ensures cache == AfterLookup(old(cache), run, now)
      ensures hit == if Live(old(cache), run, now) then Some(old(cache)[run].root) else None
    {
      if run !in cache { return None; }
      if now - cache[run].touched <= CACHE_TTL_MILLIS {
        cache := cache[run := cache[run].(touched := now)];
        return Some(cache[run].root);
      }
      cache := cache - {run};
      return None;
    }

    method OldestEntry() returns (oldest: string)
      requires cache != map[]
      ensures Oldest(cache, oldest)
    {
      oldest :| oldest in cache;
      var rest := cache.Keys - {oldest};
      while rest != {}
        invariant rest <= cache.Keys && oldest in cache
        invariant forall r :: r in cache && r !in rest ==> cache[oldest].touched <= cache[r].touched
        decreases |rest|
      {
        var r :| r in rest;
        if cache[r].touched < cache[oldest].touched { oldest := r; }
        rest := rest - {r};
      }
    }

    method Remember(run: string, now: int, root: RootIdentity)
      modifies this
      ensures Stored(old(cache), run, now, root, cache)
    {
      if |cache| >= MAX_CACHE_ENTRIES {
        var oldest := OldestEntry();
        cache := cache - {oldest};
      }
      cache := cache[run := Entry(now, root)];
    }

    /** Whatever ancestry has become, an emptied cache agrees with it. */
    method InvalidateAll()
      modifies this
      ensures cache == map[]
    {
      cache := map[];
    }

    /** The bounded walk: refuses a run it has seen, a missing row, and a parent beyond n hops. */
    method LoadRoot(db: Database, run: string, n: nat) returns (r: Result<RootIdentity, AncestryError>)
      ensures r == RootFor(db, run, n)
    {
      ghost var c := Chain(db, run, n);
      ChainLinks(db, run, n);
      if Ends(db, c) { EndedChainIsDistinct(db, run, n); }
      var seen: set<string> := {};
      var cursor := run;
      for depth := 0 to n + 1
        invariant depth <= |c|
        invariant depth < |c| ==> cursor == c[depth]
        invariant forall x :: x in seen <==> x in c[..depth]
        invariant forall i, j :: 0 <= i < j < depth ==> c[i] != c[j]
        invariant depth > 0 ==> HasParent(db, c[depth - 1])
      {
        assert depth != |c|;
        if cursor in seen {
          ghost var i :| 0 <= i < depth && c[i] == c[depth];
          return Err(Cycle);
        }
        seen := seen + {cursor};
        if cursor !in db.runs { return Err(MissingParent); }
        var parent := db.runs[cursor].parent;
        if parent.None? { return RootOf(db, cursor); }
        cursor := parent.value;
      }
      return Err(TooDeep);
    }

    /** Lookup, walk and store in turn; the answer never depends on what the cache holds. */
    method Resolve(db: Database, run: string, asked: int, loaded: int) returns (r: Result<RootIdentity, AncestryError>)
      requires CacheValid(db, MAX_DEPTH, cache)
      modifies this
      ensures CacheValid(db, MAX_DEPTH, cache)
      ensures r == if Blank(run) then Err(BlankRun) else RootFor(db, run, MAX_DEPTH)
      ensures r.Ok? ==> run in cache && cache[run].root == r.value
    {
      if Blank(run) { return Err(BlankRun); }
      ghost var before := cache;
      var hit := Cached(run, asked);
      SubsetSize(cache.Keys, before.Keys);
      if hit.Some? { return Ok(hit.value); }
      r := LoadRoot(db, run, MAX_DEPTH);
      if r.Ok? {
        ghost var middle := cache;
        Remember(run, loaded, r.value);
        StoringKeepsValid(db, MAX_DEPTH, middle, run, loaded, r.value, cache);
      }
    }
  }
}
