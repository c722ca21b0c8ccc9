/** The converter cache of the docling workers: a dict and a list of its keys
  from least to most recently used.  It is an LRU cache with room for
  max(1, max_size) entries as long as no build fails; a failed build has
  already evicted, and then a smaller cache can hold what a larger one lost. */
module ConverterCaching {
  import opened Basics
  import opened Ordering

  /** Options stand for their digest, which is taken to be injective. */
  datatype Request = ByConfig(name: string) | ByOptions(digest: string)

  datatype Converter = Converter(builtFor: Request, instance: nat)

  datatype Key = Key(text: string)

  function KeyOf(r: Request): Key {
    match r
    case ByConfig(name) => Key("config:" + name)
    case ByOptions(digest) => Key("opts:" + digest)
  }

  lemma KeyOfIsInjective(a: Request, b: Request)
    requires KeyOf(a) == KeyOf(b)
    ensures a == b
  {
    var x, y := KeyOf(a).text, KeyOf(b).text;
    assert x[0] == y[0];
    if a.ByConfig? {
      assert x[7..] == a.name && y[7..] == b.name;
    } else {
      assert x[5..] == a.digest && y[5..] == b.digest;
    }
  }

  // ------------------------------------------------------- order of the keys

  /** One get: its key, and whether a build would succeed if one is needed. */
  datatype Access = Access(key: Key, buildSucceeds: bool)

  function Without(s: seq<Key>, k: Key): seq<Key> {
    if s == [] then []
    else if s[0] == k then s[1..]
    else [s[0]] + Without(s[1..], k)
  }

  /** The last `n` elements, or all. */
  function Last(s: seq<Key>, n: int): seq<Key> {
    if n <= 0 then [] else if |s| <= n then s else s[|s| - n..]
  }

  function Touched(order: seq<Key>, k: Key): seq<Key> {
    Without(order, k) + [k]
  }

  function Evicted(order: seq<Key>, maxSize: int): seq<Key> {
    if |order| >= maxSize then Last(order, maxSize - 1) else order
  }

  function AfterAccess(order: seq<Key>, a: Access, maxSize: int): seq<Key> {
    if a.key in order then Touched(order, a.key)
    else if a.buildSucceeds then Touched(Evicted(order, maxSize), a.key)
    else Evicted(order, maxSize)
  }

  function OrderAfter(trace: seq<Access>, maxSize: int): seq<Key> {
    if trace == [] then []
    else AfterAccess(OrderAfter(trace[..|trace| - 1], maxSize), trace[|trace| - 1], maxSize)
  }

  // ----------------------------------------------------------------- the cache

  class ConverterCache {
    var cache: map<Key, Converter>
    var accessOrder: seq<Key>
    const maxSize: int
    const known: set<string>
    ghost var history: seq<Access>

    ghost predicate Valid()
      reads this
    {
      && Distinct(accessOrder)
      && KeysMatch(cache, accessOrder)
      && (forall r: Request | KeyOf(r) in cache :: cache[KeyOf(r)].builtFor == r)
      && accessOrder == OrderAfter(history, maxSize)
      && "default" in known
    }

    constructor (maxSize: int, known: set<string>)
      requires "default" in known
      ensures Valid() && history == [] && this.maxSize == maxSize && this.known == known
    {
      this.cache, this.accessOrder, this.maxSize, this.known := map[], [], maxSize, known;
      history := [];
    }

    /** The converter for a named configuration; an unknown name means the
      default one.  `built` is what the builder would return, None if it
      raises. */
    method GetByConfigName(configName: string, built: Option<Converter>) returns (r: Option<Converter>)
      requires Valid()
      requires built.Some? ==> built.value.builtFor == Effective(configName)
      modifies this
      ensures Valid()
      ensures history == old(history) + [Access(KeyOf(Effective(configName)), built.Some?)]
      ensures r ==
        if KeyOf(Effective(configName)) in old(cache) then Some(old(cache)[KeyOf(Effective(configName))]) else built
      ensures r.Some? ==> r.value.builtFor == Effective(configName)
      ensures SurvivorsUnchanged(old(cache), KeyOf(Effective(configName)))
    {
      var name := configName;
      if name !in known {
        name := "default";
      }
      r := GetOrBuild(ByConfig(name), built);
    }

    method GetByOptions(digest: string, built: Option<Converter>) returns (r: Option<Converter>)
      requires Valid()
      requires built.Some? ==> built.value.builtFor == ByOptions(digest)
      modifies this
      ensures Valid()
      ensures history == old(history) + [Access(KeyOf(ByOptions(digest)), built.Some?)]
      ensures r == if KeyOf(ByOptions(digest)) in old(cache) then Some(old(cache)[KeyOf(ByOptions(digest))]) else built
      ensures r.Some? ==> r.value.builtFor == ByOptions(digest)
      ensures SurvivorsUnchanged(old(cache), KeyOf(ByOptions(digest)))
    {
      r := GetOrBuild(ByOptions(digest), built);
    }

    function Effective(configName: string): Request {
      if configName in known then ByConfig(configName) else ByConfig("default")
    }

    ghost predicate SurvivorsUnchanged(before: map<Key, Converter>, key: Key)
      reads this
    {
      forall k | k in cache && k != key :: k in before && cache[k] == before[k]
    }

    /** The part both entry points share. */
    method GetOrBuild(request: Request, built: Option<Converter>) returns (r: Option<Converter>)
      requires Valid()
      requires built.Some? ==> built.value.builtFor == request
      modifies this
      ensures Valid()
      ensures history == old(history) + [Access(KeyOf(request), built.Some?)]
      ensures r == if KeyOf(request) in old(cache) then Some(old(cache)[KeyOf(request)]) else built
      ensures r.Some? ==> r.value.builtFor == request
      ensures SurvivorsUnchanged(old(cache), KeyOf(request))
    {
      var key := KeyOf(request);
      history := history + [Access(key, built.Some?)];
      assert history[..|history| - 1] == old(history);
      if key !in cache {
        EvictIfFull();
        if built.None? {
          return None;
        }
        cache := cache[key := built.value];
        forall q: Request | KeyOf(q) in cache ensures cache[KeyOf(q)].builtFor == q {
          if KeyOf(q) == key { KeyOfIsInjective(q, request); }
        }
      }
      Touch(key);
      r := Some(cache[key]);
    }

    method Touch(key: Key)
      requires Distinct(accessOrder)
      modifies this`accessOrder
      ensures accessOrder == Touched(old(accessOrder), key) && Distinct(accessOrder)
      ensures forall k :: k in accessOrder <==> k in old(accessOrder) || k == key
    {
      WithoutFacts(accessOrder, key);
      accessOrder := Without(accessOrder, key);
      accessOrder := accessOrder + [key];
    }

    method EvictIfFull()
      requires Distinct(accessOrder) && KeysMatch(cache, accessOrder)
      modifies this`cache, this`accessOrder
      ensures Distinct(accessOrder) && KeysMatch(cache, accessOrder)
      ensures accessOrder == Evicted(old(accessOrder), maxSize)
      ensures PartOf(cache, old(cache))
    {
      ghost var start, had, n := accessOrder, cache, 0;
      while |cache| >= maxSize && accessOrder != []
        invariant n + |accessOrder| == |start| && accessOrder == start[n..]
        invariant Distinct(accessOrder) && KeysMatch(cache, accessOrder)
        invariant n == 0 || |accessOrder| >= maxSize - 1
        invariant PartOf(cache, had)
        decreases |accessOrder|
      {
        DropOldest(cache, accessOrder, had, start, n);
        var oldest := accessOrder[0];
        accessOrder := accessOrder[1..];
        cache := cache - {oldest};
        n := n + 1;
      }
      SizeOfCache(cache, accessOrder);
      WhatIsLeft(start, n, maxSize);
    }

    method Clear()
      requires Valid()
      modifies this
      ensures Valid() && history == [] && cache == map[]
    {
      cache, accessOrder, history := map[], [], [];
    }
  }

  function Elements(s: seq<Key>): (r: set<Key>)
    ensures forall k :: k in r <==> k in s
  {
    if s == [] then {} else {s[0]} + Elements(s[1..])
  }

  ghost predicate KeysMatch(cache: map<Key, Converter>, order: seq<Key>) {
    forall k :: k in cache <==> k in order
  }

  lemma SizeOfCache(cache: map<Key, Converter>, order: seq<Key>)
    requires Distinct(order) && KeysMatch(cache, order)
    ensures |cache| == |order|
  {
    SizeOfDistinct(order);
    assert cache.Keys == Elements(order);
    assert |cache| == |cache.Keys|;
  }

  /** One turn of the eviction loop, which has dropped `n` keys so far. */
  lemma DropOldest(cache: map<Key, Converter>, order: seq<Key>, had: map<Key, Converter>, start: seq<Key>, n: nat)
    requires Distinct(order) && KeysMatch(cache, order) && PartOf(cache, had) && order != []
    requires n <= |start| && order == start[n..]
    ensures |cache| == |order|
    ensures Distinct(order[1..]) && KeysMatch(cache - {order[0]}, order[1..]) && PartOf(cache - {order[0]}, had)
    ensures n < |start| && order[1..] == start[n + 1..]
  {
    SizeOfCache(cache, order);
    forall k ensures k in order[1..] <==> k in order && k != order[0] {
      if k in order && k != order[0] {
        var i :| 0 <= i < |order| && order[i] == k;
        assert order[1..][i - 1] == k;
      }
    }
  }

  ghost predicate PartOf(cache: map<Key, Converter>, had: map<Key, Converter>) {
    forall k | k in cache :: k in had && cache[k] == had[k]
  }

  /** When the loop stops after dropping `n` keys. */
  lemma WhatIsLeft(start: seq<Key>, n: nat, maxSize: int)
    requires n <= |start| && (n == 0 || |start| - n >= maxSize - 1)
    requires |start| - n < maxSize || n == |start|
    ensures start[n..] == Evicted(start, maxSize)
  {}

  lemma {:induction false} SizeOfDistinct(s: seq<Key>)
    requires Distinct(s)
    ensures |Elements(s)| == |s|
  {
    if s != [] {
      SizeOfDistinct(s[1..]);
    }
  }

  lemma {:induction false} WithoutFacts(s: seq<Key>, k: Key)
    requires Distinct(s)
    ensures Distinct(Without(s, k))
    ensures forall x :: x in Without(s, k) <==> x in s && x != k
    ensures k !in s ==> Without(s, k) == s
  {
    if s != [] {
      WithoutFacts(s[1..], k);
      assert s[0] !in s[1..];
      assert s == [s[0]] + s[1..];
    }
  }

  // --------------------------------------------------------- the LRU property

  /** All keys of a trace from least to most recently accessed. */
  function Recency(trace: seq<Access>): seq<Key> {
    if trace == [] then [] else Touched(Recency(trace[..|trace| - 1]), trace[|trace| - 1].key)
  }

  predicate FailureFree(trace: seq<Access>) {
    forall i | 0 <= i < |trace| :: trace[i].buildSucceeds
  }

  /** Position of the latest access to `k`. */
  function LastUse(trace: seq<Access>, k: Key): (i: int)
    ensures -1 <= i < |trace|
    ensures i >= 0 ==> trace[i].key == k
    ensures forall j | i < j < |trace| :: trace[j].key != k
  {
    if trace == [] then -1
    else if trace[|trace| - 1].key == k then |trace| - 1
    else LastUse(trace[..|trace| - 1], k)
  }

  /** `Recency` lists exactly the accessed keys, ordered by their last use. */
  lemma {:induction false} RecencyOrdersByLastUse(trace: seq<Access>)
    ensures var r := Recency(trace);
            && Distinct(r)
            && (forall k :: k in r <==> LastUse(trace, k) >= 0)
            && forall i, j | 0 <= i < j < |r| :: LastUse(trace, r[i]) < LastUse(trace, r[j])
  {
    if trace != [] {
      var front, k := trace[..|trace| - 1], trace[|trace| - 1].key;
      RecencyOrdersByLastUse(front);
      WithoutFacts(Recency(front), k);
      var rest := Without(Recency(front), k);
      forall i, j | 0 <= i < j < |rest| ensures LastUse(front, rest[i]) < LastUse(front, rest[j]) {
        WithoutKeepsOrder(Recency(front), k, i, j);
      }
    }
  }

  lemma {:induction false} WithoutKeepsOrder(s: seq<Key>, k: Key, i: nat, j: nat)
    requires i < j < |Without(s, k)|
    ensures exists m, n | 0 <= m < n < |s| :: s[m] == Without(s, k)[i] && s[n] == Without(s, k)[j]
  {
    if s[0] == k {
      assert s[i + 1] == Without(s, k)[i] && s[j + 1] == Without(s, k)[j];
    } else if i == 0 {
      var x := Without(s, k)[j];
      assert x in Without(s[1..], k);
      WithoutIsPart(s[1..], k, x);
      var n :| 0 <= n < |s[1..]| && s[1..][n] == x;
      assert s[0] == Without(s, k)[0] && s[n + 1] == x;
    } else {
      WithoutKeepsOrder(s[1..], k, i - 1, j - 1);
      var m, n :| 0 <= m < n < |s[1..]|
        && s[1..][m] == Without(s[1..], k)[i - 1] && s[1..][n] == Without(s[1..], k)[j - 1];
      assert s[m + 1] == Without(s, k)[i] && s[n + 1] == Without(s, k)[j];
    }
  }

  lemma {:induction false} WithoutIsPart(s: seq<Key>, k: Key, x: Key)
    requires x in Without(s, k)
    ensures x in s
  {
    if s != [] && s[0] != k && x != s[0] {
      WithoutIsPart(s[1..], k, x);
    }
  }

  lemma {:induction false} WithoutSplit(a: seq<Key>, b: seq<Key>, k: Key)
    ensures Without(a + b, k) == if k in a then Without(a, k) + b else a + Without(b, k)
  {
    if a == [] {
      assert a + b == b;
    } else {
      assert (a + b)[1..] == a[1..] + b;
      if a[0] != k {
        WithoutSplit(a[1..], b, k);
      }
    }
  }

  lemma {:induction false} WithoutLength(s: seq<Key>, k: Key)
    ensures |Without(s, k)| == |s| - if k in s then 1 else 0
  {
    if s != [] && s[0] != k {
      WithoutLength(s[1..], k);
    }
  }

  /** One access to a cache that holds the latest keys of `r`. */
  lemma AccessKeepsLatest(r: seq<Key>, k: Key, maxSize: int)
    requires Distinct(r)
    ensures var cap := Max(1, maxSize);
            AfterAccess(Last(r, cap), Access(k, true), maxSize) == Last(Touched(r, k), cap)
  {
    var order := Last(r, Max(1, maxSize));
    var older := r[..|r| - |order|];
    assert r == older + order;
    WithoutSplit(older, order, k);
    if k in order {
      HitKeepsLatest(older, order, k, Max(1, maxSize));
    } else {
      MissKeepsLatest(older, order, k, maxSize);
    }
  }

  lemma HitKeepsLatest(older: seq<Key>, order: seq<Key>, k: Key, cap: int)
    requires Distinct(older + order) && k in order && cap >= 1
    requires |order| == cap || (older == [] && |order| < cap)
    ensures Touched(order, k) == Last(Touched(older + order, k), cap)
  {
    var n :| 0 <= n < |order| && order[n] == k;
    assert (older + order)[|older| + n] == k;
    assert forall i | 0 <= i < |older| :: (older + order)[i] == older[i];
    WithoutSplit(older, order, k);
    WithoutLength(order, k);
    assert Touched(older + order, k) == older + Touched(order, k);
  }

  lemma MissKeepsLatest(older: seq<Key>, order: seq<Key>, k: Key, maxSize: int)
    requires k !in order
    requires |order| == Max(1, maxSize) || (older == [] && |order| < Max(1, maxSize))
    ensures Touched(Evicted(order, maxSize), k) == Last(Touched(older + order, k), Max(1, maxSize))
  {
    var rest, room := Without(older, k), Evicted(order, maxSize);
    MissAppends(older, order, k);
    NotThere(room, k);
    if |order| == Max(1, maxSize) {
      assert room == order[1..];
      LastOfSum(rest, order + [k], |order|);
      assert (order + [k])[1..] == order[1..] + [k];
    } else {
      assert room == order && rest == [];
      assert rest + (order + [k]) == order + [k];
    }
  }

  lemma MissAppends(older: seq<Key>, order: seq<Key>, k: Key)
    requires k !in order
    ensures Touched(older + order, k) == Without(older, k) + (order + [k])
  {
    WithoutSplit(older, order, k);
    NotThere(order, k);
    if k !in older { NotThere(older, k); }
    assert Without(older + order, k) == Without(older, k) + order;
  }

  lemma LastOfSum(a: seq<Key>, b: seq<Key>, n: nat)
    requires 1 <= n <= |b|
    ensures Last(a + b, n) == b[|b| - n..]
  {}

  lemma {:induction false} NotThere(s: seq<Key>, k: Key)
    requires k !in s
    ensures Without(s, k) == s
  {
    if s != [] {
      NotThere(s[1..], k);
    }
  }

  /** The list holds the last max(1, max_size) distinct keys, by recency. */
  lemma {:induction false} HoldsLatestKeys(trace: seq<Access>, maxSize: int)
    requires FailureFree(trace)
    ensures OrderAfter(trace, maxSize) == Last(Recency(trace), Max(1, maxSize))
  {
    if trace != [] {
      var front, last := trace[..|trace| - 1], trace[|trace| - 1];
      HoldsLatestKeys(front, maxSize);
      RecencyOrdersByLastUse(front);
      AccessKeepsLatest(Recency(front), last.key, maxSize);
    }
  }

  /** A key is cached exactly when fewer than max(1, max_size) other keys were
    accessed after its own last access. */
  lemma CachedIffRecent(trace: seq<Access>, maxSize: int, n: nat)
    requires FailureFree(trace) && n < |Recency(trace)|
    ensures Recency(trace)[n] in OrderAfter(trace, maxSize) <==> |Recency(trace)| - 1 - n < Max(1, maxSize)
  {
    HoldsLatestKeys(trace, maxSize);
    RecencyOrdersByLastUse(trace);
    LastHolds(Recency(trace), Max(1, maxSize), n);
  }

  lemma LastHolds(s: seq<Key>, m: nat, n: nat)
    requires Distinct(s) && n < |s| && m >= 1
    ensures s[n] in Last(s, m) <==> |s| - 1 - n < m
  {
    var last := Last(s, m);
    if |s| - 1 - n < m {
      assert last[n - (|s| - |last|)] == s[n];
    }
    forall i | 0 <= i < |last| ensures last[i] == s[|s| - |last| + i] {}
  }

  // ------------------------------------------------------------- inclusion

  predicate Suffix(small: seq<Key>, large: seq<Key>) {
    |small| <= |large| && small == large[|large| - |small|..]
  }

  /** The access that harms: the larger cache has the key, the smaller one tries
    to build it, fails, and still holds something after evicting. */
  predicate Breaks(small: seq<Key>, large: seq<Key>, a: Access, smallMax: int) {
    a.key in large && a.key !in small && !a.buildSucceeds && Evicted(small, smallMax) != []
  }

  lemma {:induction false} EvictedSuffix(small: seq<Key>, large: seq<Key>, smallMax: int, largeMax: int)
    requires smallMax <= largeMax && Suffix(small, large)
    requires |small| <= Max(1, smallMax) && |large| <= Max(1, largeMax)
    ensures Suffix(Evicted(small, smallMax), Evicted(large, largeMax))
    ensures Suffix(Evicted(small, smallMax), small)
  {
    var shorter, longer := Evicted(small, smallMax), Evicted(large, largeMax);
    assert shorter == small[|small| - |shorter|..] && longer == large[|large| - |longer|..];
    assert |shorter| <= |longer|;
    assert small[|small| - |shorter|..] == large[|large| - |shorter|..];
    assert longer[|longer| - |shorter|..] == large[|large| - |shorter|..];
  }

  lemma EvictedKeepsDistinct(order: seq<Key>, maxSize: int)
    requires Distinct(order)
    ensures Distinct(Evicted(order, maxSize))
  {}

  lemma AccessFits(order: seq<Key>, a: Access, maxSize: int)
    requires Distinct(order) && |order| <= Max(1, maxSize)
    ensures Distinct(AfterAccess(order, a, maxSize)) && |AfterAccess(order, a, maxSize)| <= Max(1, maxSize)
  {
    EvictedKeepsDistinct(order, maxSize);
    WithoutFacts(order, a.key);
    WithoutFacts(Evicted(order, maxSize), a.key);
    WithoutLength(order, a.key);
    WithoutLength(Evicted(order, maxSize), a.key);
  }

  lemma HitInBoth(older: seq<Key>, small: seq<Key>, k: Key)
    requires Distinct(older + small) && k in small
    ensures Suffix(Touched(small, k), Touched(older + small, k))
  {
    var n :| 0 <= n < |small| && small[n] == k;
    assert (older + small)[|older| + n] == k;
    assert forall i | 0 <= i < |older| :: (older + small)[i] == older[i];
    WithoutSplit(older, small, k);
    assert Touched(older + small, k) == older + Touched(small, k);
  }

  lemma HitInLargeOnly(older: seq<Key>, small: seq<Key>, a: Access, smallMax: int)
    requires Distinct(older + small) && a.key in older && a.key !in small && |small| <= Max(1, smallMax)
    ensures Suffix(AfterAccess(small, a, smallMax), Touched(older + small, a.key))
       <==> a.buildSucceeds || Evicted(small, smallMax) == []
  {
    var k, kept := a.key, Evicted(small, smallMax);
    MissAppends(older, small, k);
    EvictedSuffix(small, small, smallMax, smallMax);
    NotThere(kept, k);
    AppendedSuffix(Without(older, k), small, kept, k);
  }

  lemma AppendedSuffix(rest: seq<Key>, small: seq<Key>, kept: seq<Key>, k: Key)
    requires Suffix(kept, small) && k !in small
    ensures Suffix(kept + [k], rest + (small + [k]))
    ensures Suffix(kept, rest + (small + [k])) <==> kept == []
  {
    var large := rest + (small + [k]);
    assert kept + [k] == large[|large| - |kept| - 1..];
    if kept != [] {
      assert kept[|kept| - 1] == small[|small| - 1] != k == large[|large| - 1];
    }
  }

  lemma MissInBoth(small: seq<Key>, large: seq<Key>, a: Access, smallMax: int, largeMax: int)
    requires smallMax <= largeMax && Suffix(small, large) && a.key !in large
    requires |small| <= Max(1, smallMax) && |large| <= Max(1, largeMax)
    ensures Suffix(AfterAccess(small, a, smallMax), AfterAccess(large, a, largeMax))
  {
    EvictedSuffix(small, large, smallMax, largeMax);
    NotThere(Evicted(small, smallMax), a.key);
    NotThere(Evicted(large, largeMax), a.key);
  }

  /** One access to a smaller and a larger cache, of which the one holds the most
    recent part of the other: that stays so exactly if the access is not of
    the harmful kind. */
  lemma AccessKeepsInclusionIff(small: seq<Key>, large: seq<Key>, a: Access, smallMax: int, largeMax: int)
    requires smallMax <= largeMax && Distinct(large) && Suffix(small, large)
    requires |small| <= Max(1, smallMax) && |large| <= Max(1, largeMax)
    ensures Suffix(AfterAccess(small, a, smallMax), AfterAccess(large, a, largeMax))
      <==> !Breaks(small, large, a, smallMax)
  {
    var older := large[..|large| - |small|];
    assert large == older + small;
    if a.key in small {
      assert a.key in large;
      HitInBoth(older, small, a.key);
    } else if a.key in large {
      assert a.key in older;
      HitInLargeOnly(older, small, a, smallMax);
    } else {
      MissInBoth(small, large, a, smallMax, largeMax);
    }
  }

  predicate IncludedAt(trace: seq<Access>, n: nat, smallMax: int, largeMax: int)
    requires n <= |trace|
  {
    Suffix(OrderAfter(trace[..n], smallMax), OrderAfter(trace[..n], largeMax))
  }

  predicate BreaksAt(trace: seq<Access>, i: nat, smallMax: int, largeMax: int)
    requires i < |trace|
  {
    Breaks(OrderAfter(trace[..i], smallMax), OrderAfter(trace[..i], largeMax), trace[i], smallMax)
  }

  lemma {:induction false} OrderFits(trace: seq<Access>, maxSize: int)
    ensures Distinct(OrderAfter(trace, maxSize)) && |OrderAfter(trace, maxSize)| <= Max(1, maxSize)
  {
    if trace != [] {
      OrderFits(trace[..|trace| - 1], maxSize);
      AccessFits(OrderAfter(trace[..|trace| - 1], maxSize), trace[|trace| - 1], maxSize);
    }
  }

  lemma InclusionStep(trace: seq<Access>, n: nat, smallMax: int, largeMax: int)
    requires smallMax <= largeMax && n < |trace| && IncludedAt(trace, n, smallMax, largeMax)
    ensures IncludedAt(trace, n + 1, smallMax, largeMax) <==> !BreaksAt(trace, n, smallMax, largeMax)
  {
    assert trace[..n + 1] == trace[..n] + [trace[n]];
    OrderGrows(trace[..n], trace[n]);
    OrderFits(trace[..n], smallMax);
    OrderFits(trace[..n], largeMax);
    AccessKeepsInclusionIff(OrderAfter(trace[..n], smallMax), OrderAfter(trace[..n], largeMax), trace[n],
                            smallMax, largeMax);
  }

  lemma {:induction false} IncludedUpTo(trace: seq<Access>, n: nat, smallMax: int, largeMax: int)
    requires smallMax <= largeMax && n <= |trace|
    requires forall i: nat | i < n :: !BreaksAt(trace, i, smallMax, largeMax)
    ensures IncludedAt(trace, n, smallMax, largeMax)
  {
    if n > 0 {
      IncludedUpTo(trace, n - 1, smallMax, largeMax);
      InclusionStep(trace, n - 1, smallMax, largeMax);
    }
  }

  /** LRU inclusion with failing builds: the smaller cache holds the most recent
    part of the larger one all along a trace exactly if no access of the trace
    is of the harmful kind. */
  lemma IncludedThroughoutIff(trace: seq<Access>, smallMax: int, largeMax: int)
    requires smallMax <= largeMax
    ensures (forall n: nat | n <= |trace| :: IncludedAt(trace, n, smallMax, largeMax))
       <==> (forall i: nat | i < |trace| :: !BreaksAt(trace, i, smallMax, largeMax))
  {
    if forall i: nat | i < |trace| :: !BreaksAt(trace, i, smallMax, largeMax) {
      forall n: nat | n <= |trace| ensures IncludedAt(trace, n, smallMax, largeMax) {
        IncludedUpTo(trace, n, smallMax, largeMax);
      }
    }
    if forall n: nat | n <= |trace| :: IncludedAt(trace, n, smallMax, largeMax) {
      forall i: nat | i < |trace| ensures !BreaksAt(trace, i, smallMax, largeMax) {
        assert IncludedAt(trace, i, smallMax, largeMax) && IncludedAt(trace, i + 1, smallMax, largeMax);
        InclusionStep(trace, i, smallMax, largeMax);
      }
    }
  }

  lemma SuffixIsContained(small: seq<Key>, large: seq<Key>)
    requires Suffix(small, large)
    ensures forall k | k in small :: k in large
  {
    forall k | k in small ensures k in large {
      var i :| 0 <= i < |small| && small[i] == k;
      assert large[|large| - |small| + i] == k;
    }
  }

  /** Inclusion on failure-free traces: a smaller cache holds a part of what a
    larger one holds. */
  lemma SmallerIsContained(trace: seq<Access>, small: int, large: int)
    requires FailureFree(trace) && small <= large
    ensures Suffix(OrderAfter(trace, small), OrderAfter(trace, large))
    ensures forall k | k in OrderAfter(trace, small) :: k in OrderAfter(trace, large)
  {
    IncludedThroughoutIff(trace, small, large);
    assert IncludedAt(trace, |trace|, small, large);
    assert trace[..|trace|] == trace;
    SuffixIsContained(OrderAfter(trace, small), OrderAfter(trace, large));
  }

  // ------------------------------------------------------ plain containment

  predicate Contained(small: seq<Key>, large: seq<Key>) {
    forall k | k in small :: k in large
  }

  /** Neither cache has the key, and to make room the larger one drops a key that
    the smaller one keeps. */
  predicate Overruns(small: seq<Key>, large: seq<Key>, a: Access, smallMax: int, largeMax: int) {
    && a.key !in small && a.key !in large
    && exists k :: k in Evicted(small, smallMax) && k !in Evicted(large, largeMax)
  }

  lemma TouchedKeys(order: seq<Key>, k: Key, x: Key)
    ensures x in Touched(order, k) <==> x in order || x == k
  {
    if x != k { WithoutKeys(order, k, x); }
  }

  lemma {:induction false} WithoutKeys(order: seq<Key>, k: Key, x: Key)
    requires x != k
    ensures x in Without(order, k) <==> x in order
  {
    if order != [] {
      WithoutKeys(order[1..], k, x);
      assert order == [order[0]] + order[1..];
    }
  }

  lemma EvictedIsPart(order: seq<Key>, maxSize: int)
    ensures Contained(Evicted(order, maxSize), order)
  {}

  /** What is cached after an access. */
  lemma KeysAfterAccess(order: seq<Key>, a: Access, maxSize: int, x: Key)
    ensures x in AfterAccess(order, a, maxSize) <==>
      if a.key in order then x in order
      else x in Evicted(order, maxSize) || (a.buildSucceeds && x == a.key)
  {
    TouchedKeys(order, a.key, x);
    TouchedKeys(Evicted(order, maxSize), a.key, x);
  }

  /** One access to two caches of any sizes, one containing the other: that stays
    so if and only if the access does not overrun. */
  lemma AccessKeepsContainedIff(small: seq<Key>, large: seq<Key>, a: Access, smallMax: int, largeMax: int)
    requires Contained(small, large)
    ensures Contained(AfterAccess(small, a, smallMax), AfterAccess(large, a, largeMax))
       <==> !Overruns(small, large, a, smallMax, largeMax)
  {
    var small', large' := AfterAccess(small, a, smallMax), AfterAccess(large, a, largeMax);
    EvictedIsPart(small, smallMax);
    forall x ensures x in small' ==> x in small || x == a.key { KeysAfterAccess(small, a, smallMax, x); }
    if Overruns(small, large, a, smallMax, largeMax) {
      var k :| k in Evicted(small, smallMax) && k !in Evicted(large, largeMax);
      KeysAfterAccess(small, a, smallMax, k);
      KeysAfterAccess(large, a, largeMax, k);
    } else {
      forall x | x in small' ensures x in large' {
        KeysAfterAccess(small, a, smallMax, x);
        KeysAfterAccess(large, a, largeMax, x);
      }
    }
  }

  predicate ContainedAt(trace: seq<Access>, n: nat, smallMax: int, largeMax: int)
    requires n <= |trace|
  {
    Contained(OrderAfter(trace[..n], smallMax), OrderAfter(trace[..n], largeMax))
  }

  predicate OverrunsAt(trace: seq<Access>, i: nat, smallMax: int, largeMax: int)
    requires i < |trace|
  {
    Overruns(OrderAfter(trace[..i], smallMax), OrderAfter(trace[..i], largeMax), trace[i], smallMax, largeMax)
  }

  lemma ContainmentStep(trace: seq<Access>, n: nat, smallMax: int, largeMax: int)
    requires n < |trace| && ContainedAt(trace, n, smallMax, largeMax)
    ensures ContainedAt(trace, n + 1, smallMax, largeMax) <==> !OverrunsAt(trace, n, smallMax, largeMax)
  {
    assert trace[..n + 1] == trace[..n] + [trace[n]];
    OrderGrows(trace[..n], trace[n]);
    AccessKeepsContainedIff(OrderAfter(trace[..n], smallMax), OrderAfter(trace[..n], largeMax), trace[n],
                            smallMax, largeMax);
  }

  lemma {:induction false} ContainedUpTo(trace: seq<Access>, n: nat, smallMax: int, largeMax: int)
    requires n <= |trace| && forall i: nat | i < n :: !OverrunsAt(trace, i, smallMax, largeMax)
    ensures ContainedAt(trace, n, smallMax, largeMax)
  {
    if n > 0 {
      ContainedUpTo(trace, n - 1, smallMax, largeMax);
      ContainmentStep(trace, n - 1, smallMax, largeMax);
    }
  }

  /** Failing builds included, everything the smaller cache holds is in the larger
    one all along a trace exactly if no access of the trace overruns. */
  lemma ContainedThroughoutIff(trace: seq<Access>, smallMax: int, largeMax: int)
    ensures (forall n: nat | n <= |trace| :: ContainedAt(trace, n, smallMax, largeMax))
       <==> (forall i: nat | i < |trace| :: !OverrunsAt(trace, i, smallMax, largeMax))
  {
    if forall i: nat | i < |trace| :: !OverrunsAt(trace, i, smallMax, largeMax) {
      forall n: nat | n <= |trace| ensures ContainedAt(trace, n, smallMax, largeMax) {
        ContainedUpTo(trace, n, smallMax, largeMax);
      }
    }
    if forall n: nat | n <= |trace| :: ContainedAt(trace, n, smallMax, largeMax) {
      forall i: nat | i < |trace| ensures !OverrunsAt(trace, i, smallMax, largeMax) {
        assert ContainedAt(trace, i, smallMax, largeMax) && ContainedAt(trace, i + 1, smallMax, largeMax);
        ContainmentStep(trace, i, smallMax, largeMax);
      }
    }
  }

  /** Namely as much of its most recent part as there is room for. */
  lemma SmallerIsRecentPart(trace: seq<Access>, small: int, large: int)
    requires FailureFree(trace) && small <= large
    ensures OrderAfter(trace, small) == Last(OrderAfter(trace, large), Max(1, small))
  {
    HoldsLatestKeys(trace, small);
    HoldsLatestKeys(trace, large);
    LastOfLast(Recency(trace), Max(1, small), Max(1, large));
  }

  lemma LastOfLast(s: seq<Key>, m: int, n: int)
    requires m <= n
    ensures Last(Last(s, n), m) == Last(s, m)
  {}

  /** The harmful kind of access does occur, and two of them can cost a key: here
    the smaller cache ends up with `b`, which the larger has evicted. */
  lemma FailedBuildsBreakInclusion(k: Key, a: Key, b: Key, p: Key)
    requires Distinct([k, a, b, p])
    ensures OrderAfter(FailingTrace(k, a, b, p), 2) == [b, p]
    ensures OrderAfter(FailingTrace(k, a, b, p), 3) == [k, a, p]
    ensures b !in OrderAfter(FailingTrace(k, a, b, p), 3)
    ensures BreaksAt(FailingTrace(k, a, b, p), 3, 2, 3)
    ensures exists i: nat :: i < |FailingTrace(k, a, b, p)| && OverrunsAt(FailingTrace(k, a, b, p), i, 2, 3)
  {
    var keys := [k, a, b, p];
    assert keys[0] != keys[1] && keys[0] != keys[2] && keys[0] != keys[3];
    assert keys[1] != keys[2] && keys[1] != keys[3] && keys[2] != keys[3];
    TwoFailed(k, a, b);
    FirstHarm(k, a, b, p);
    OrderGrows([Access(k, true), Access(a, true), Access(b, true), Access(k, false), Access(a, false)],
               Access(p, true));
    assert Touched([b], p) == [b, p] && Touched([k, a], p) == [k, a, p] by {
      NotThere([b], p);
      NotThere([k, a], p);
    }
    assert [b, k, a][1..] == [k, a];
    SomeOverrun(FailingTrace(k, a, b, p), b, 2, 3);
  }

  lemma SomeOverrun(trace: seq<Access>, k: Key, smallMax: int, largeMax: int)
    requires k in OrderAfter(trace, smallMax) && k !in OrderAfter(trace, largeMax)
    ensures exists i: nat :: i < |trace| && OverrunsAt(trace, i, smallMax, largeMax)
  {
    assert trace[..|trace|] == trace;
    if forall i: nat | i < |trace| :: !OverrunsAt(trace, i, smallMax, largeMax) {
      ContainedUpTo(trace, |trace|, smallMax, largeMax);
    }
  }

  lemma FirstHarm(k: Key, a: Key, b: Key, p: Key)
    requires k != a && k != b && a != b
    ensures BreaksAt(FailingTrace(k, a, b, p), 3, 2, 3)
  {
    var trace := FailingTrace(k, a, b, p);
    ThreeBuilt(k, a, b);
    assert trace[..3] == [Access(k, true), Access(a, true), Access(b, true)];
    assert trace[3] == Access(k, false);
    assert Evicted([a, b], 2) == [b];
    assert [k, a, b][0] == k;
  }

  function FailingTrace(k: Key, a: Key, b: Key, p: Key): seq<Access> {
    [Access(k, true), Access(a, true), Access(b, true), Access(k, false), Access(a, false)] + [Access(p, true)]
  }

  lemma ThreeBuilt(k: Key, a: Key, b: Key)
    requires k != a && k != b && a != b
    ensures var trace := [Access(k, true), Access(a, true), Access(b, true)];
            OrderAfter(trace, 2) == [a, b] && OrderAfter(trace, 3) == [k, a, b]
  {
    var trace := [Access(k, true), Access(a, true), Access(b, true)];
    var none: seq<Access> := [];
    OrderGrows(none, Access(k, true));
    OrderGrows([Access(k, true)], Access(a, true));
    assert none + [Access(k, true)] == trace[..1];
    assert [Access(k, true), Access(a, true)] + [Access(b, true)] == trace;
    NotThere([], k);
    assert OrderAfter(trace[..1], 2) == [k] && OrderAfter(trace[..1], 3) == [k];
    NotThere([k], a);
    assert OrderAfter(trace[..2], 2) == [k, a] && OrderAfter(trace[..2], 3) == [k, a] by {
      assert trace[..2] == [Access(k, true)] + [Access(a, true)];
    }
    assert trace == trace[..2] + [Access(b, true)];
    ThirdBuilt(trace[..2], k, a, b);
  }

  lemma ThirdBuilt(trace: seq<Access>, k: Key, a: Key, b: Key)
    requires k != b && a != b && OrderAfter(trace, 2) == OrderAfter(trace, 3) == [k, a]
    ensures OrderAfter(trace + [Access(b, true)], 2) == [a, b] && OrderAfter(trace + [Access(b, true)], 3) == [k, a, b]
  {
    OrderGrows(trace, Access(b, true));
    NotThere([a], b);
    NotThere([k, a], b);
    assert [k, a][1..] == [a];
  }

  lemma TwoFailed(k: Key, a: Key, b: Key)
    requires k != a && k != b && a != b
    ensures var trace := [Access(k, true), Access(a, true), Access(b, true), Access(k, false), Access(a, false)];
            OrderAfter(trace, 2) == [b] && OrderAfter(trace, 3) == [b, k, a]
  {
    ThreeBuilt(k, a, b);
    var built := [Access(k, true), Access(a, true), Access(b, true)];
    OrderGrows(built, Access(k, false));
    OrderGrows(built + [Access(k, false)], Access(a, false));
    assert built + [Access(k, false)] + [Access(a, false)]
        == [Access(k, true), Access(a, true), Access(b, true), Access(k, false), Access(a, false)];
    assert [a, b][1..] == [b];
    assert Without([k, a, b], k) == [a, b];
    assert Without([a, b, k], a) == [b, k];
  }

  lemma OrderGrows(trace: seq<Access>, a: Access)
    ensures forall maxSize :: OrderAfter(trace + [a], maxSize) == AfterAccess(OrderAfter(trace, maxSize), a, maxSize)
  {
    assert (trace + [a])[..|trace|] == trace;
  }
}
