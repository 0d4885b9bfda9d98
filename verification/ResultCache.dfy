/**
 The byte- and count-bounded result cache (python-service/src/analysis_jobs.py): an ordered
 dictionary whose front is the entry used least recently.
 */
module ResultCache {
  import opened Wrappers

  const MAX_RESULT_BYTES: nat := 8 * 1024 * 1024
  const MAX_CACHE_BYTES: nat := 32 * 1024 * 1024
  const MAX_ENTRIES: nat := 32
  const CACHE_TTL_SECONDS: nat := 300

  type Bytes = seq<bv8>

  datatype Entry = Entry(key: string, expires: int, body: Bytes)

  type Cache = seq<Entry>

  function Filter(c: Cache, keep: Entry -> bool): Cache {
    if c == [] then []
    else if keep(c[0]) then [c[0]] + Filter(c[1..], keep)
    else Filter(c[1..], keep)
  }

  function Prune(c: Cache, now: int): Cache { Filter(c, (e: Entry) => e.expires > now) }

  function Without(c: Cache, key: string): Cache { Filter(c, (e: Entry) => e.key != key) }

  function Find(c: Cache, key: string): Option<Entry> {
    if c == [] then None else if c[0].key == key then Some(c[0]) else Find(c[1..], key)
  }

  function MoveToEnd(c: Cache, key: string): Cache {
    match Find(c, key)
    case None => c
    case Some(e) => Without(c, key) + [e]
  }

  function Total(c: Cache): nat { if c == [] then 0 else |c[0].body| + Total(c[1..]) }

  predicate Fits(c: Cache) { |c| <= MAX_ENTRIES && Total(c) <= MAX_CACHE_BYTES }

  /** Drops from the front until the rest fits. */
  function Evict(c: Cache): Cache {
    if Fits(c) then c else if c == [] then assert false; [] else Evict(c[1..])
  }

  function AfterCached(c: Cache, key: string, now: int): Cache { MoveToEnd(Prune(c, now), key) }

  function CachedAnswer(c: Cache, key: string, now: int): Option<Bytes> {
    match Find(Prune(c, now), key)
    case None => None
    case Some(e) => Some(e.body)
  }

  /** The clock is read once to prune and again for the new entry. */
  function AfterRemember(c: Cache, key: string, body: Bytes, now: int, stored: int): Cache {
    Evict(Without(Prune(c, now), key) + [Entry(key, stored + CACHE_TTL_SECONDS, body)])
  }

  // ---------- eviction ----------

  lemma {:induction false} TotalOfSuffix(c: Cache, k: nat)
    requires k <= |c|
    ensures Total(c[k..]) <= Total(c)
  {
    if k > 0 {
      assert c[1..][k - 1..] == c[k..];
      TotalOfSuffix(c[1..], k - 1);
    }
  }

  /** What is evicted is the shortest prefix whose removal suffices. */
  lemma {:induction false} EvictIsShortestPrefix(c: Cache) returns (k: nat)
    ensures k <= |c| && Evict(c) == c[k..] && Fits(c[k..])
    ensures forall m :: 0 <= m < k ==> !Fits(c[m..])
  {
    if Fits(c) {
      k := 0;
      assert c[0..] == c;
    } else {
      assert c != [];
      var rest := EvictIsShortestPrefix(c[1..]);
      k := rest + 1;
      assert c[1..][rest..] == c[k..];
      forall m | 0 <= m < k ensures !Fits(c[m..]) {
        if m == 0 { assert c[0..] == c; } else { assert c[1..][m - 1..] == c[m..]; }
      }
    }
  }

  /** A body is held afterwards, at the end, exactly when it fits alone; any result a worker may send does. */
  lemma RememberHolds(c: Cache, key: string, body: Bytes, now: int, stored: int)
    ensures Fits(AfterRemember(c, key, body, now, stored))
    ensures var after := AfterRemember(c, key, body, now, stored);
      |body| <= MAX_CACHE_BYTES <==> after != [] && after[|after| - 1] == Entry(key, stored + CACHE_TTL_SECONDS, body)
    ensures var after := AfterRemember(c, key, body, now, stored);
      |body| <= MAX_RESULT_BYTES ==> after != [] && after[|after| - 1] == Entry(key, stored + CACHE_TTL_SECONDS, body)
  {
    var kept := Without(Prune(c, now), key);
    var entry := Entry(key, stored + CACHE_TTL_SECONDS, body);
    var full := kept + [entry];
    var k := EvictIsShortestPrefix(full);
    assert full[|kept|..] == [entry];
    assert Total([entry]) == |body|;
    if k <= |kept| {
      TotalOfSuffix(full[k..], |kept| - k);
      assert full[k..][|kept| - k..] == [entry];
    } else {
      assert full[k..] == [];
    }
  }

  // ---------- the order of use ----------

  /** Entries stand in the order of their rank, so no key occurs twice. */
  ghost predicate Ordered(c: Cache, rank: string -> int) {
    forall i, j :: 0 <= i < j < |c| ==> rank(c[i].key) < rank(c[j].key)
  }

  lemma {:induction false} FilterKeeps(c: Cache, keep: Entry -> bool, rank: string -> int)
    ensures forall e :: e in Filter(c, keep) <==> e in c && keep(e)
    ensures Ordered(c, rank) ==> Ordered(Filter(c, keep), rank)
  {
    if c != [] {
      FilterKeeps(c[1..], keep, rank);
      assert c == [c[0]] + c[1..];
      var rest := Filter(c[1..], keep);
      if Ordered(c, rank) {
        forall e | e in rest ensures rank(c[0].key) < rank(e.key) {
          var i :| 0 <= i < |c[1..]| && c[1..][i] == e;
          assert c[i + 1] == e;
        }
      }
    }
  }

  lemma {:induction false} FindFinds(c: Cache, key: string)
    ensures match Find(c, key)
      case None => forall i :: 0 <= i < |c| ==> c[i].key != key
      case Some(e) => e in c && e.key == key
  {
    if c != [] && c[0].key != key { FindFinds(c[1..], key); }
  }

  // ---------- histories ----------

  datatype Step =
    | PruneAt(now: int)
    | Ask(key: string, now: int)
    | Store(key: string, body: Bytes, now: int, stored: int)

  function Next(c: Cache, step: Step): Cache {
    match step
    case PruneAt(now) => Prune(c, now)
    case Ask(key, now) => AfterCached(c, key, now)
    case Store(key, body, now, stored) => AfterRemember(c, key, body, now, stored)
  }

  function After(steps: seq<Step>): Cache {
    if steps == [] then [] else Next(After(steps[..|steps| - 1]), steps[|steps| - 1])
  }

  /** What the history last stored under a key. */
  function LastStored(steps: seq<Step>, key: string): Option<Entry> {
    if steps == [] then None
    else
      var last := steps[|steps| - 1];
      if last.Store? && last.key == key then Some(Entry(key, last.stored + CACHE_TTL_SECONDS, last.body))
      else LastStored(steps[..|steps| - 1], key)
  }

  /** When the history last named a key, to ask for it or to store it. */
  function LastUse(steps: seq<Step>, key: string): int {
    if steps == [] then -1
    else
      var last := steps[|steps| - 1];
      if !last.PruneAt? && last.key == key then |steps| - 1 else LastUse(steps[..|steps| - 1], key)
  }

  function Use(steps: seq<Step>): string -> int { key => LastUse(steps, key) }

  lemma {:induction false} UseIsPast(steps: seq<Step>, key: string)
    ensures LastUse(steps, key) < |steps|
  {
    if steps != [] { UseIsPast(steps[..|steps| - 1], key); }
  }

  ghost predicate Faithful(c: Cache, steps: seq<Step>) {
    && Fits(c)
    && Ordered(c, Use(steps))
    && forall e :: e in c ==> LastStored(steps, e.key) == Some(e)
  }

  lemma {:induction false} TotalOfFilter(c: Cache, keep: Entry -> bool)
    ensures Total(Filter(c, keep)) <= Total(c) && |Filter(c, keep)| <= |c|
  {
    if c != [] { TotalOfFilter(c[1..], keep); }
  }

  lemma {:induction false} TotalOfConcat(a: Cache, b: Cache)
    ensures Total(a + b) == Total(a) + Total(b)
  {
    if a == [] {
      assert a + b == b;
    } else {
      assert (a + b)[1..] == a[1..] + b;
      TotalOfConcat(a[1..], b);
    }
  }

  lemma {:induction false} MovingFits(c: Cache, key: string, e: Entry)
    requires e in c && e.key == key
    ensures Total(Without(c, key)) + |e.body| <= Total(c) && |Without(c, key)| + 1 <= |c|
  {
    if c[0] == e {
      TotalOfFilter(c[1..], (e: Entry) => e.key != key);
    } else {
      assert e in c[1..];
      MovingFits(c[1..], key, e);
    }
  }

  /** Placing an entry of the key just used behind those of all other keys keeps the order. */
  lemma AppendKeepsOrder(c: Cache, steps: seq<Step>, e: Entry)
    requires steps != [] && Ordered(c, Use(steps[..|steps| - 1]))
    requires !steps[|steps| - 1].PruneAt? && steps[|steps| - 1].key == e.key
    ensures Ordered(Without(c, e.key) + [e], Use(steps))
    ensures forall x :: x in Without(c, e.key) <==> x in c && x.key != e.key
  {
    var before := steps[..|steps| - 1];
    var rest := Without(c, e.key);
    FilterKeeps(c, (x: Entry) => x.key != e.key, Use(before));
    forall i | 0 <= i < |rest| ensures Use(steps)(rest[i].key) == Use(before)(rest[i].key) < |before| {
      assert rest[i] in rest;
      UseIsPast(before, rest[i].key);
    }
  }

  lemma PruneKeepsFaithful(c: Cache, steps: seq<Step>, now: int)
    requires Faithful(c, steps)
    ensures Faithful(Prune(c, now), steps)
    ensures forall e :: e in Prune(c, now) <==> e in c && e.expires > now
  {
    FilterKeeps(c, (e: Entry) => e.expires > now, Use(steps));
    TotalOfFilter(c, (e: Entry) => e.expires > now);
  }

  lemma AskKeepsFaithful(c: Cache, steps: seq<Step>)
    requires steps != [] && steps[|steps| - 1].Ask? && Faithful(c, steps[..|steps| - 1])
    ensures Faithful(AfterCached(c, steps[|steps| - 1].key, steps[|steps| - 1].now), steps)
  {
    var key, now := steps[|steps| - 1].key, steps[|steps| - 1].now;
    var pruned := Prune(c, now);
    PruneKeepsFaithful(c, steps[..|steps| - 1], now);
    FindFinds(pruned, key);
    match Find(pruned, key)
    case None => AbsentKeyKeepsOrder(pruned, steps);
    case Some(e) =>
      AppendKeepsOrder(pruned, steps, e);
      MovingFits(pruned, key, e);
      TotalOfConcat(Without(pruned, key), [e]);
  }

  /** Asking for a key that is not held changes no rank that is held. */
  lemma AbsentKeyKeepsOrder(c: Cache, steps: seq<Step>)
    requires steps != [] && Ordered(c, Use(steps[..|steps| - 1]))
    requires !steps[|steps| - 1].PruneAt? ==> forall i :: 0 <= i < |c| ==> c[i].key != steps[|steps| - 1].key
    ensures Ordered(c, Use(steps))
  {
    forall i | 0 <= i < |c| ensures Use(steps)(c[i].key) == Use(steps[..|steps| - 1])(c[i].key) { }
  }

  /** Storing drops a prefix of what was live, in order of use, with the new entry last. */
  lemma StoreDropsPrefix(c: Cache, steps: seq<Step>) returns (full: Cache, k: nat)
    requires steps != [] && steps[|steps| - 1].Store? && Faithful(c, steps[..|steps| - 1])
    ensures Ordered(full, Use(steps)) && k <= |full|
    ensures var s := steps[|steps| - 1];
      && AfterRemember(c, s.key, s.body, s.now, s.stored) == full[k..] && Fits(full[k..])
      && (forall e :: e in full ==> LastStored(steps, e.key) == Some(e))
      && forall e :: e in c && e.expires > s.now && e.key != s.key ==> e in full
  {
    var s := steps[|steps| - 1];
    var pruned, entry := Prune(c, s.now), Entry(s.key, s.stored + CACHE_TTL_SECONDS, s.body);
    PruneKeepsFaithful(c, steps[..|steps| - 1], s.now);
    AppendKeepsOrder(pruned, steps, entry);
    full := Without(pruned, s.key) + [entry];
    k := EvictIsShortestPrefix(full);
    forall e | e in full ensures LastStored(steps, e.key) == Some(e) {
      assert e == entry || (e in pruned && e.key != s.key);
    }
  }

  lemma StoreKeepsFaithful(c: Cache, steps: seq<Step>)
    requires steps != [] && steps[|steps| - 1].Store? && Faithful(c, steps[..|steps| - 1])
    ensures var s := steps[|steps| - 1]; Faithful(AfterRemember(c, s.key, s.body, s.now, s.stored), steps)
  {
    var full, k := StoreDropsPrefix(c, steps);
    SuffixKeepsOrder(full, Use(steps), k);
  }

  lemma SuffixKeepsOrder(c: Cache, rank: string -> int, k: nat)
    requires Ordered(c, rank) && k <= |c|
    ensures Ordered(c[k..], rank) && forall e :: e in c[k..] ==> e in c
  {
  }

  /**
   Over any history the cache is within both bounds, ordered by last use, and holds under each
   key the very entry that was stored last.
   */
  lemma {:induction false} HistoryIsFaithful(steps: seq<Step>)
    ensures Faithful(After(steps), steps)
  {
    if steps != [] {
      var before, c := steps[..|steps| - 1], After(steps[..|steps| - 1]);
      HistoryIsFaithful(before);
      match steps[|steps| - 1]
      case PruneAt(now) =>
        PruneKeepsFaithful(c, before, now);
        AbsentKeyKeepsOrder(Prune(c, now), steps);
      case Ask(_, _) => AskKeepsFaithful(c, steps);
      case Store(_, _, _, _) => StoreKeepsFaithful(c, steps);
    }
  }

  /** A hit is the body stored last under the key, within its lifetime. */
  lemma CachedIsLastStored(steps: seq<Step>, key: string, now: int)
    requires CachedAnswer(After(steps), key, now).Some?
    ensures LastStored(steps, key).Some?
    ensures var e := LastStored(steps, key).value;
      CachedAnswer(After(steps), key, now) == Some(e.body) && now < e.expires
  {
    HistoryIsFaithful(steps);
    PruneKeepsFaithful(After(steps), steps, now);
    FindFinds(Prune(After(steps), now), key);
  }

  lemma PrefixRanksBelow(c: Cache, rank: string -> int, k: nat, gone: Entry, kept: Entry)
    requires Ordered(c, rank) && k <= |c| && gone in c && gone !in c[k..] && kept in c[k..]
    ensures rank(gone.key) < rank(kept.key)
  {
    assert c == c[..k] + c[k..];
    var i :| 0 <= i < k && c[i] == gone;
    var j :| k <= j < |c| && c[j] == kept;
  }

  /** Evicted entries were used before every entry that stays. */
  lemma EvictionIsLeastRecentlyUsed(steps: seq<Step>, gone: Entry, kept: Entry)
    requires steps != [] && steps[|steps| - 1].Store?
    requires gone in After(steps[..|steps| - 1]) && gone !in After(steps)
    requires gone.expires > steps[|steps| - 1].now && gone.key != steps[|steps| - 1].key
    requires kept in After(steps)
    ensures LastUse(steps, gone.key) < LastUse(steps, kept.key)
  {
    HistoryIsFaithful(steps[..|steps| - 1]);
    var full, k := StoreDropsPrefix(After(steps[..|steps| - 1]), steps);
    PrefixRanksBelow(full, Use(steps), k, gone, kept);
  }

  // ---------- nothing is lost but for room ----------

  /** What a store finds under the other keys, still live, in order. */
  function LiveOthers(c: Cache, now: int, key: string): Cache {
    Filter(c, (e: Entry) => e.expires > now && e.key != key)
  }

  function NewEntry(key: string, body: Bytes, stored: int): Entry { Entry(key, stored + CACHE_TTL_SECONDS, body) }

  lemma {:induction false} FilterTwice(c: Cache, now: int, key: string)
    ensures Without(Prune(c, now), key) == LiveOthers(c, now, key)
  {
    if c != [] { FilterTwice(c[1..], now, key); }
  }

  lemma SuffixFits(c: Cache, k: nat)
    requires Fits(c) && k <= |c|
    ensures Fits(c[k..])
  {
    TotalOfSuffix(c, k);
  }

  /**
   A store keeps a live entry of another key exactly when it fits together with everything behind it
   and the new entry; where all of them fit, nothing is lost.
   */
  lemma StoreKeepsExactly(c: Cache, key: string, body: Bytes, now: int, stored: int, j: nat)
    requires j <= |LiveOthers(c, now, key)|
    ensures var others, entry := LiveOthers(c, now, key), NewEntry(key, body, stored);
      var after := AfterRemember(c, key, body, now, stored);
      && (Fits((others + [entry])[j..]) <==> |others| + 1 - j <= |after|)
      && |after| <= |others| + 1 && after == (others + [entry])[|others| + 1 - |after|..]
      && (Fits(others + [entry]) ==> after == others + [entry])
  {
    var full := LiveOthers(c, now, key) + [NewEntry(key, body, stored)];
    FilterTwice(c, now, key);
    var k := EvictIsShortestPrefix(full);
    if k <= j {
      assert full[k..][j - k..] == full[j..];
      SuffixFits(full[k..], j - k);
    }
    if Fits(full) { assert full[0..] == full; }
  }

  /** There is room for a key at a store of another: with all that was used since, it fits beside the new entry. */
  predicate HasRoom(c: Cache, s: Step, key: string)
    requires s.Store?
  {
    var others := LiveOthers(c, s.now, s.key);
    exists j :: 0 <= j < |others| && others[j].key == key
                && Fits((others + [NewEntry(s.key, s.body, s.stored)])[j..])
  }

  /** Since its last store, a key's entry neither expired at a step nor had to make room. */
  ghost predicate StaysHeld(steps: seq<Step>, key: string) {
    if steps == [] then false
    else
      var before, last := steps[..|steps| - 1], steps[|steps| - 1];
      if last.Store? && last.key == key then |last.body| <= MAX_CACHE_BYTES
      else
        && StaysHeld(before, key) && LastStored(before, key).Some?
        && last.now < LastStored(before, key).value.expires
        && (last.Store? ==> HasRoom(After(before), last, key))
  }

  predicate Holds(c: Cache, key: string) { exists i :: 0 <= i < |c| && c[i].key == key }

  lemma HoldsByMembers(c: Cache, key: string)
    ensures Holds(c, key) <==> exists e :: e in c && e.key == key
  {
  }

  lemma PruneHoldsExactly(c: Cache, steps: seq<Step>, key: string, now: int)
    requires Faithful(c, steps)
    ensures Holds(Prune(c, now), key) <==> Holds(c, key) && now < LastStored(steps, key).value.expires
  {
    PruneKeepsFaithful(c, steps, now);
    HoldsByMembers(c, key);
    HoldsByMembers(Prune(c, now), key);
    if Holds(c, key) {
      var i :| 0 <= i < |c| && c[i].key == key;
      assert c[i] in c;
    }
  }

  lemma AskHoldsExactly(c: Cache, steps: seq<Step>, asked: string, key: string, now: int)
    requires Faithful(c, steps)
    ensures Holds(AfterCached(c, asked, now), key) <==> Holds(c, key) && now < LastStored(steps, key).value.expires
  {
    var pruned := Prune(c, now);
    PruneHoldsExactly(c, steps, key, now);
    FindFinds(pruned, asked);
    if Find(pruned, asked).Some? {
      var e := Find(pruned, asked).value;
      FilterKeeps(pruned, (x: Entry) => x.key != asked, Use(steps));
      HoldsByMembers(pruned, key);
      HoldsByMembers(Without(pruned, asked) + [e], key);
    }
  }

  lemma HeldHasRoom(c: Cache, s: Step, i: nat)
    requires s.Store? && i < |AfterRemember(c, s.key, s.body, s.now, s.stored)|
    requires AfterRemember(c, s.key, s.body, s.now, s.stored)[i].key != s.key
    ensures HasRoom(c, s, AfterRemember(c, s.key, s.body, s.now, s.stored)[i].key)
  {
    var others, entry := LiveOthers(c, s.now, s.key), NewEntry(s.key, s.body, s.stored);
    var full := others + [entry];
    var after := AfterRemember(c, s.key, s.body, s.now, s.stored);
    StoreKeepsExactly(c, s.key, s.body, s.now, s.stored, 0);
    var j := |full| - |after| + i;
    assert full[j] == after[i];
    assert full[|others|] == entry;
    StoreKeepsExactly(c, s.key, s.body, s.now, s.stored, j);
    assert others[j] == full[j];
  }

  lemma RoomIsHeld(c: Cache, s: Step, key: string, j: nat)
    requires s.Store? && j < |LiveOthers(c, s.now, s.key)| && LiveOthers(c, s.now, s.key)[j].key == key
    requires Fits((LiveOthers(c, s.now, s.key) + [NewEntry(s.key, s.body, s.stored)])[j..])
    ensures Holds(AfterRemember(c, s.key, s.body, s.now, s.stored), key)
  {
    var others := LiveOthers(c, s.now, s.key);
    var full := others + [NewEntry(s.key, s.body, s.stored)];
    var after := AfterRemember(c, s.key, s.body, s.now, s.stored);
    StoreKeepsExactly(c, s.key, s.body, s.now, s.stored, j);
    var i := j - (|full| - |after|);
    assert after[i] == full[j] == others[j];
  }

  lemma StoreHoldsExactly(c: Cache, s: Step, key: string)
    requires s.Store? && s.key != key
    ensures Holds(AfterRemember(c, s.key, s.body, s.now, s.stored), key) <==> HasRoom(c, s, key)
  {
    var after := AfterRemember(c, s.key, s.body, s.now, s.stored);
    if i :| 0 <= i < |after| && after[i].key == key { HeldHasRoom(c, s, i); }
    if HasRoom(c, s, key) {
      var others := LiveOthers(c, s.now, s.key);
      var j :| 0 <= j < |others| && others[j].key == key
               && Fits((others + [NewEntry(s.key, s.body, s.stored)])[j..]);
      RoomIsHeld(c, s, key, j);
    }
  }

  lemma RoomNeedsLife(c: Cache, steps: seq<Step>, s: Step, key: string)
    requires Faithful(c, steps) && s.Store? && s.key != key && HasRoom(c, s, key)
    ensures Holds(c, key) && s.now < LastStored(steps, key).value.expires
  {
    var others := LiveOthers(c, s.now, s.key);
    FilterKeeps(c, (e: Entry) => e.expires > s.now && e.key != s.key, Use(steps));
    var j :| 0 <= j < |others| && others[j].key == key;
    assert others[j] in others;
    HoldsByMembers(c, key);
  }

  lemma OwnStoreHoldsExactly(c: Cache, s: Step)
    requires s.Store?
    ensures Holds(AfterRemember(c, s.key, s.body, s.now, s.stored), s.key) <==> |s.body| <= MAX_CACHE_BYTES
  {
    var after, others := AfterRemember(c, s.key, s.body, s.now, s.stored), LiveOthers(c, s.now, s.key);
    RememberHolds(c, s.key, s.body, s.now, s.stored);
    StoreKeepsExactly(c, s.key, s.body, s.now, s.stored, 0);
    var full := others + [NewEntry(s.key, s.body, s.stored)];
    if after != [] { assert after[|after| - 1] == full[|full| - 1] == NewEntry(s.key, s.body, s.stored); }
  }

  /** Over any history a key is held exactly while nothing but its life or room could have ended it. */
  lemma {:induction false} HeldExactly(steps: seq<Step>, key: string)
    ensures Holds(After(steps), key) <==> StaysHeld(steps, key)
    ensures StaysHeld(steps, key) ==> LastStored(steps, key).Some?
  {
    if steps != [] {
      var before, last := steps[..|steps| - 1], steps[|steps| - 1];
      HeldExactly(before, key);
      HistoryIsFaithful(before);
      match last
      case PruneAt(now) => PruneHoldsExactly(After(before), before, key, now);
      case Ask(asked, now) => AskHoldsExactly(After(before), before, asked, key, now);
      case Store(stored, _, _, _) =>
        if stored == key {
          OwnStoreHoldsExactly(After(before), last);
        } else {
          StoreHoldsExactly(After(before), last, key);
          if HasRoom(After(before), last, key) { RoomNeedsLife(After(before), before, last, key); }
        }
    }
  }

  /** A body stored last under a key, not expired and never evicted for room, is a hit, and nothing else is. */
  lemma HitExactly(steps: seq<Step>, key: string, now: int)
    ensures CachedAnswer(After(steps), key, now).Some? <==>
              StaysHeld(steps, key) && now < LastStored(steps, key).value.expires
    ensures StaysHeld(steps, key) && now < LastStored(steps, key).value.expires ==>
              CachedAnswer(After(steps), key, now) == Some(LastStored(steps, key).value.body)
  {
    HeldExactly(steps, key);
    HistoryIsFaithful(steps);
    var pruned := Prune(After(steps), now);
    PruneHoldsExactly(After(steps), steps, key, now);
    FindFinds(pruned, key);
    HoldsByMembers(pruned, key);
    if CachedAnswer(After(steps), key, now).Some? { CachedIsLastStored(steps, key, now); }
  }

  // ---------- the cache itself ----------

  class AnalysisCache {
    var entries: Cache

    constructor ()
      ensures entries == After([])
    {
      entries := [];
    }

    method PruneEntries(now: int)
      modifies this
      ensures entries == Prune(old(entries), now)
    {
      var kept: Cache := [];
      ghost var keep := (e: Entry) => e.expires > now;
      for i := 0 to |entries|
        invariant entries == old(entries)
        invariant kept + Filter(entries[i..], keep) == Filter(entries, keep)
      {
        assert entries[i..][1..] == entries[i + 1..];
        if entries[i].expires > now { kept := kept + [entries[i]]; }
      }
      entries := kept;
    }

    method Cached(key: string, now: int) returns (body: Option<Bytes>)
      modifies this
      ensures entries == AfterCached(old(entries), key, now)
      ensures body == CachedAnswer(old(entries), key, now)
    {
      PruneEntries(now);
      var entry := Find(entries, key);
      if entry.Some? {
        entries := MoveToEnd(entries, key);
        return Some(entry.value.body);
      }
      return None;
    }

    method Remember(key: string, body: Bytes, now: int, stored: int)
      modifies this
      ensures entries == AfterRemember(old(entries), key, body, now, stored)
    {
      PruneEntries(now);
      entries := Without(entries, key) + [Entry(key, stored + CACHE_TTL_SECONDS, body)];
      while |entries| > MAX_ENTRIES || Total(entries) > MAX_CACHE_BYTES
        invariant Evict(entries) == AfterRemember(old(entries), key, body, now, stored)
        decreases |entries|
      {
        entries := entries[1..];
      }
    }
  }
}
