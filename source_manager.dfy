/**
 * The knowledge-source registry (knowledge/source_manager.py): which sources
 * are enabled and initialised, and an in-memory result cache keyed by
 * "source:query:max_results" whose oldest insertions are evicted first.
 *
 * The sources themselves are oracles: whether a source's `initialize` and
 * `close` succeed, and what its `query` returns (`None` when it raises).
 */
module SourceManager {
  import opened Wrappers
  import opened Values
  import Text

  const DefaultSources: seq<string> := ["web_search", "wikipedia", "arxiv"]
  const DefaultMaxSize := 1000

  /** The source modules the dynamic import can find: the three under knowledge/sources/. */
  predicate Importable(name: string) {
    name == "web_search" || name == "wikipedia" || name == "arxiv"
  }

  /**
   * The names registered after `initialize` tries each of `names` in turn,
   * starting from the sources already registered: a name is registered when
   * its module exists and its `initialize` succeeds, and a name already
   * present keeps its place.
   */
  function Registered(start: seq<string>, names: seq<string>, initOk: string -> bool): (r: seq<string>)
    ensures Text.Distinct(start) ==> Text.Distinct(r)
    ensures |start| <= |r| && r[..|start|] == start
    ensures forall n :: n in r <==> n in start || (n in names && Importable(n) && initOk(n))
  {
    if names == [] then start
    else
      var prefix := Registered(start, names[..|names| - 1], initOk);
      var n := names[|names| - 1];
      assert forall m :: m in names <==> m in names[..|names| - 1] || m == n;
      if Importable(n) && initOk(n) && n !in prefix then prefix + [n] else prefix
  }

  /** `f"{source}:{query}:{max_results}"`. */
  function CacheKey(source: string, query: Json, max: int): string {
    source + ":" + PyStr(query) + ":" + Text.IntToString(max)
  }

  /**
   * The keys `_prune_cache` keeps: when there are more than `maxSize`, the
   * first `len - maxSize` inserted are dropped (all of them when `maxSize`
   * is negative, as Python's slice stops at the end).
   */
  function KeepNewest(order: seq<string>, maxSize: int): (r: seq<string>)
    ensures |order| <= maxSize ==> r == order
    ensures |order| > maxSize ==> |r| == (if maxSize < 0 then 0 else maxSize)
    ensures r == order[|order| - |r|..]
  {
    if |order| <= maxSize then order
    else if maxSize < 0 then []
    else order[|order| - maxSize..]
  }

  /** The cache entries whose keys are listed. */
  function Restrict(cache: map<string, seq<Json>>, keys: seq<string>): map<string, seq<Json>> {
    map k | k in cache && k in keys :: cache[k]
  }

  class KnowledgeSourceManager {
    var enabled: seq<string>
    /** The initialised sources, by name, in registration order. */
    var sources: seq<string>
    var cacheEnabled: bool
    var maxSize: int
    /** The cache's keys in insertion order, and its entries. */
    var cacheOrder: seq<string>
    var cache: map<string, seq<Json>>

    ghost predicate Valid()
      reads this
    {
      Text.Distinct(sources) && Text.Distinct(cacheOrder)
      && (forall k :: k in cache <==> k in cacheOrder)
    }

    /**
     * `sources` and the cache settings default as `config.get` does:
     * the three sources, caching off, at most 1000 entries.
     */
    constructor (sourcesSetting: Option<seq<string>>, cacheSetting: bool, maxSizeSetting: Option<int>)
      ensures Valid()
      ensures enabled == sourcesSetting.GetOr(DefaultSources)
      ensures sources == [] && cacheOrder == [] && cache == map[]
      ensures cacheEnabled == cacheSetting && maxSize == maxSizeSetting.GetOr(DefaultMaxSize)
    {
      enabled := sourcesSetting.GetOr(DefaultSources);
      sources := [];
      cacheEnabled := cacheSetting;
      maxSize := maxSizeSetting.GetOr(DefaultMaxSize);
      cacheOrder := [];
      cache := map[];
    }

    /** `initialize`: every enabled name is tried; a failure does not stop the others. */
    method Initialize(initOk: string -> bool)
      requires Valid()
      modifies this`sources
      ensures Valid()
      ensures sources == Registered(old(sources), enabled, initOk)
    {
      var i := 0;
      ghost var start := sources;
      while i < |enabled|
        invariant 0 <= i <= |enabled|
        invariant sources == Registered(start, enabled[..i], initOk)
      {
        assert enabled[..i + 1][..i] == enabled[..i];
        var name := enabled[i];
        if Importable(name) && initOk(name) && name !in sources {
          sources := sources + [name];
        }
        i := i + 1;
      }
      assert enabled[..i] == enabled;
    }

    /** `_prune_cache`: deletes the oldest keys, one at a time, until at most `maxSize` remain. */
    method PruneCache()
      requires Valid()
      modifies this`cacheOrder, this`cache
      ensures Valid()
      ensures cacheOrder == KeepNewest(old(cacheOrder), maxSize)
      ensures cache == Restrict(old(cache), cacheOrder)
    {
      if |cacheOrder| > maxSize {
        var remove := |cacheOrder| - maxSize;
        if remove > |cacheOrder| {
          remove := |cacheOrder|;
        }
        DropOldest(remove);
      } else {
        RestrictAll(cache, cacheOrder);
      }
    }

    /** The deletion loop of `_prune_cache`: the first `remove` keys inserted go. */
    method DropOldest(remove: int)
      requires Valid() && 0 <= remove <= |cacheOrder|
      modifies this`cacheOrder, this`cache
      ensures Valid()
      ensures cacheOrder == old(cacheOrder)[remove..]
      ensures cache == Restrict(old(cache), cacheOrder)
    {
      ghost var order0 := cacheOrder;
      ghost var cache0 := cache;
      var doomed := cacheOrder[..remove];
      var i := 0;
      while i < remove
        invariant 0 <= i <= remove
        invariant cacheOrder == order0[i..]
        invariant forall k :: k in cache <==> k in cacheOrder
        invariant forall k | k in cache :: cache[k] == cache0[k]
      {
        var key := doomed[i];
        HeadNotInTail(order0, i);
        DropHead(cache, cacheOrder);
        cache := Drop(cache, key);
        cacheOrder := cacheOrder[1..];
        i := i + 1;
      }
      SuffixDistinct(order0, remove);
      assert cache == Restrict(cache0, cacheOrder);
    }

    /**
     * `query`: an unknown or uninitialised source gives []; with the cache on,
     * a stored list is returned without asking the source; otherwise the
     * source is asked (`called`), its answer stored when the cache is on, and
     * a raising source gives [] with nothing stored.
     */
    method Query(source: string, query: Json, max: int, answer: Option<seq<Json>>)
      returns (results: seq<Json>, called: bool)
      requires Valid()
      modifies this`cacheOrder, this`cache
      ensures Valid()
      ensures var key := CacheKey(source, query, max);
        if source !in enabled || source !in sources then
          results == [] && !called && cacheOrder == old(cacheOrder) && cache == old(cache)
        else if cacheEnabled && key in old(cache) then
          results == old(cache)[key] && !called && cacheOrder == old(cacheOrder) && cache == old(cache)
        else if answer.None? then
          results == [] && called && cacheOrder == old(cacheOrder) && cache == old(cache)
        else if !cacheEnabled then
          results == answer.value && called && cacheOrder == old(cacheOrder) && cache == old(cache)
        else
          results == answer.value && called
          && cacheOrder == KeepNewest(old(cacheOrder) + [key], maxSize)
          && cache == Restrict(old(cache)[key := answer.value], cacheOrder)
    {
      called := false;
      if source !in enabled || source !in sources {
        return [], false;
      }
      var key := CacheKey(source, query, max);
      if cacheEnabled && key in cache {
        return cache[key], false;
      }
      called := true;
      if answer.None? {
        return [], true;
      }
      results := answer.value;
      if cacheEnabled {
        Store(key, results);
      }
    }

    /** `self.cache[key] = results` for a new key, then `_prune_cache`. */
    method Store(key: string, v: seq<Json>)
      requires Valid() && key !in cache
      modifies this`cacheOrder, this`cache
      ensures Valid()
      ensures cacheOrder == KeepNewest(old(cacheOrder) + [key], maxSize)
      ensures cache == Restrict(old(cache)[key := v], cacheOrder)
    {
      assert key !in cacheOrder;
      cache := cache[key := v];
      cacheOrder := cacheOrder + [key];
      PruneCache();
    }

    /** `close`: every registered source is closed in turn, failures logged and passed over. */
    method Close(closeOk: string -> bool) returns (attempted: seq<string>, failed: seq<string>)
      ensures attempted == sources
      ensures forall n :: n in failed <==> n in sources && !closeOk(n)
    {
      attempted, failed := [], [];
      var i := 0;
      while i < |sources|
        invariant 0 <= i <= |sources|
        invariant attempted == sources[..i]
        invariant forall n :: n in failed <==> n in sources[..i] && !closeOk(n)
      {
        Text.SliceSnoc(sources, i);
        attempted := attempted + [sources[i]];
        if !closeOk(sources[i]) {
          failed := failed + [sources[i]];
        }
        i := i + 1;
      }
      assert sources[..i] == sources;
    }
  }

  // ---------------------------------------------------------------------------
  // Properties of the cache policy

  /** Pruning leaves at most `maxSize` keys, and never adds one. */
  lemma PruneBound(order: seq<string>, maxSize: int)
    requires maxSize >= 0
    ensures |KeepNewest(order, maxSize)| <= maxSize
    ensures |KeepNewest(order, maxSize)| <= |order|
  {
  }

  /**
   * Pruning removes exactly `len - maxSize` of the oldest keys and keeps the
   * others in their insertion order; nothing is removed when `len <= maxSize`.
   */
  lemma PruneRemovesOldest(order: seq<string>, maxSize: int)
    requires Text.Distinct(order)
    ensures var kept := KeepNewest(order, maxSize);
      var removed := |order| - |kept|;
      && (|order| <= maxSize ==> removed == 0)
      && (0 <= maxSize < |order| ==> removed == |order| - maxSize)
      && (forall i :: 0 <= i < removed ==> order[i] !in kept)
      && (forall i :: removed <= i < |order| ==> kept[i - removed] == order[i])
  {
    var kept := KeepNewest(order, maxSize);
    var removed := |order| - |kept|;
    forall i | 0 <= i < removed ensures order[i] !in kept {
      assert forall j | 0 <= j < |kept| :: kept[j] == order[removed + j];
    }
  }

  lemma RestrictAll(cache: map<string, seq<Json>>, keys: seq<string>)
    requires forall k :: k in cache <==> k in keys
    ensures cache == Restrict(cache, keys)
  {
  }

  /** `del cache[key]`. */
  function Drop(cache: map<string, seq<Json>>, key: string): (r: map<string, seq<Json>>)
    ensures forall k :: k in r <==> k in cache && k != key
    ensures forall k | k in r :: r[k] == cache[k]
  {
    map k | k in cache && k != key :: cache[k]
  }

  /** Deleting the oldest key keeps the cache's keys those of the rest of the order. */
  lemma DropHead(cache: map<string, seq<Json>>, order: seq<string>)
    requires order != [] && order[0] !in order[1..]
    requires forall k :: k in cache <==> k in order
    ensures forall k :: k in Drop(cache, order[0]) <==> k in order[1..]
  {
    assert order == [order[0]] + order[1..];
  }

  /** A key of a distinct order occurs nowhere after its own position. */
  lemma HeadNotInTail(order: seq<string>, i: int)
    requires Text.Distinct(order) && 0 <= i < |order|
    ensures order[i..][0] == order[i] && order[i..][1..] == order[i + 1..]
    ensures order[i] !in order[i + 1..]
  {
    var tail := order[i + 1..];
    assert forall j | 0 <= j < |tail| :: tail[j] == order[i + 1 + j];
  }

  lemma SuffixDistinct(s: seq<string>, i: int)
    requires Text.Distinct(s) && 0 <= i <= |s|
    ensures Text.Distinct(s[i..])
  {
    forall a, b | 0 <= a < b < |s[i..]| ensures s[i..][a] != s[i..][b] {
      assert s[i..][a] == s[i + a] && s[i..][b] == s[i + b];
    }
  }

  /**
   * After a store with the cache on and `maxSize >= 1`, the new entry survives
   * pruning, so the next identical query is answered from the cache.
   */
  lemma StoredSurvives(order: seq<string>, cache: map<string, seq<Json>>, key: string, v: seq<Json>, maxSize: int)
    requires maxSize >= 1
    ensures var kept := KeepNewest(order + [key], maxSize);
      key in kept && key in Restrict(cache[key := v], kept) && Restrict(cache[key := v], kept)[key] == v
  {
    var o := order + [key];
    var kept := KeepNewest(o, maxSize);
    assert kept[|kept| - 1] == o[|o| - 1];
  }
}
