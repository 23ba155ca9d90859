/**
 * Configuration (config.py): the built-in defaults, the recursive merge of
 * a loaded file over them, and the environment-variable overrides.
 *
 * The parsed YAML file and the environment are inputs. Configurations are
 * values: the shallow copy of the defaults, through which Python's merge
 * also changes the nested default dictionaries, is not modelled.
 */
module Config {
  import opened Wrappers
  import opened Values
  import Text

  // ---------------------------------------------------------------------------
  // Defaults

  function LlmDefaults(): Record {
    [("provider", JStr("ollama")), ("model", JStr("llama3.2")),
     ("api_base", JStr("http://localhost:11434/api")), ("temperature", JFloat(0.7)),
     ("max_tokens", JInt(4000))]
  }

  function RateLimitDefaults(): Record {
    [("requests_per_minute", JInt(10)), ("delay_between_requests", JInt(6))]
  }

  function BrowserDefaults(): Record {
    [("headless", JBool(true)),
     ("user_agent", JStr("ResearchAssistant/1.0 (+https://example.com/bot; for research purposes)")),
     ("timeout", JInt(30)), ("screenshots_dir", JStr("screenshots")),
     ("respect_robots_txt", JBool(true)), ("rate_limit", JObj(RateLimitDefaults()))]
  }

  function CacheDefaults(): Record {
    [("enabled", JBool(true)), ("ttl", JInt(3600)), ("max_size", JInt(1000))]
  }

  function KnowledgeDefaults(): Record {
    [("sources", JList([JStr("web_search"), JStr("wikipedia"), JStr("arxiv")])),
     ("cache", JObj(CacheDefaults()))]
  }

  function WebDefaults(): Record {
    [("host", JStr("127.0.0.1")), ("port", JInt(8080)), ("debug", JBool(false))]
  }

  /** `DEFAULT_CONFIG`. */
  function DefaultConfig(): Record {
    [("llm", JObj(LlmDefaults())), ("browser", JObj(BrowserDefaults())),
     ("knowledge", JObj(KnowledgeDefaults())), ("web", JObj(WebDefaults()))]
  }

  /** The value at a path of keys through nested dictionaries. */
  function GetPath(config: Record, path: seq<string>): Option<Json>
    decreases |path|
  {
    if path == [] then None
    else
      match Get(config, path[0])
      case None => None
      case Some(v) =>
        if |path| == 1 then Some(v)
        else if v.JObj? then GetPath(v.fields, path[1..])
        else None
  }

  /** A path of two or more keys descends through the dictionary at its first key. */
  lemma GetPathStep(config: Record, k: string, rest: seq<string>)
    requires rest != []
    ensures GetPath(config, [k] + rest) ==
      var v := Get(config, k);
      if v.Some? && v.value.JObj? then GetPath(v.value.fields, rest) else None
  {
    assert ([k] + rest)[0] == k && ([k] + rest)[1..] == rest;
  }

  /** A one-key path reads the value at that key. */
  lemma PathOf1(config: Record, a: string, v: Json)
    requires Get(config, a) == Some(v)
    ensures GetPath(config, [a]) == Some(v)
  {
    assert [a][0] == a;
  }

  /** A two-key path reads through the dictionary at its first key. */
  lemma PathOf2(config: Record, a: string, inner: Record, b: string, v: Json)
    requires Get(config, a) == Some(JObj(inner)) && Get(inner, b) == Some(v)
    ensures GetPath(config, [a, b]) == Some(v)
  {
    PathOf1(inner, b, v);
    GetPathStep(config, a, [b]);
    assert [a, b] == [a] + [b];
  }

  /** A three-key path reads through two nested dictionaries. */
  lemma PathOf3(config: Record, a: string, inner: Record, b: string, innermost: Record, c: string, v: Json)
    requires Get(config, a) == Some(JObj(inner)) && Get(inner, b) == Some(JObj(innermost))
    requires Get(innermost, c) == Some(v)
    ensures GetPath(config, [a, b, c]) == Some(v)
  {
    PathOf2(inner, b, innermost, c, v);
    GetPathStep(config, a, [b, c]);
    assert [a, b, c] == [a] + [b, c];
  }

  lemma BrowserRateLimit()
    ensures Get(DefaultConfig(), "browser") == Some(JObj(BrowserDefaults()))
    ensures Get(BrowserDefaults(), "rate_limit") == Some(JObj(RateLimitDefaults()))
  {
    GetFirst(DefaultConfig(), 1);
    GetFirst(BrowserDefaults(), 5);
  }

  lemma KnowledgeCache()
    ensures Get(DefaultConfig(), "knowledge") == Some(JObj(KnowledgeDefaults()))
    ensures Get(KnowledgeDefaults(), "cache") == Some(JObj(CacheDefaults()))
  {
    GetFirst(DefaultConfig(), 2);
    GetFirst(KnowledgeDefaults(), 1);
  }

  lemma LlmSection()
    ensures Get(DefaultConfig(), "llm") == Some(JObj(LlmDefaults()))
  {
    GetFirst(DefaultConfig(), 0);
  }

  lemma RateLimitEntries()
    ensures Get(RateLimitDefaults(), "requests_per_minute") == Some(JInt(10))
    ensures Get(RateLimitDefaults(), "delay_between_requests") == Some(JInt(6))
  {
    GetFirst(RateLimitDefaults(), 0);
    GetFirst(RateLimitDefaults(), 1);
  }

  lemma CacheEntries()
    ensures Get(CacheDefaults(), "enabled") == Some(JBool(true))
    ensures Get(CacheDefaults(), "max_size") == Some(JInt(1000))
  {
    GetFirst(CacheDefaults(), 0);
    GetFirst(CacheDefaults(), 2);
  }

  lemma LlmEntries()
    ensures Get(LlmDefaults(), "temperature") == Some(JFloat(0.7))
    ensures Get(LlmDefaults(), "max_tokens") == Some(JInt(4000))
  {
    GetFirst(LlmDefaults(), 3);
    GetFirst(LlmDefaults(), 4);
  }

  /** The browser makes at most 10 requests a minute to a domain by default. */
  lemma DefaultRequestsPerMinute()
    ensures GetPath(DefaultConfig(), ["browser", "rate_limit", "requests_per_minute"]) == Some(JInt(10))
  {
    BrowserRateLimit();
    RateLimitEntries();
    PathOf3(DefaultConfig(), "browser", BrowserDefaults(), "rate_limit", RateLimitDefaults(), "requests_per_minute", JInt(10));
  }

  /** The browser waits 6 seconds between requests to a domain by default. */
  lemma DefaultDelay()
    ensures GetPath(DefaultConfig(), ["browser", "rate_limit", "delay_between_requests"]) == Some(JInt(6))
  {
    BrowserRateLimit();
    RateLimitEntries();
    PathOf3(DefaultConfig(), "browser", BrowserDefaults(), "rate_limit", RateLimitDefaults(), "delay_between_requests", JInt(6));
  }

  /** The knowledge cache is on by default. */
  lemma DefaultCacheEnabled()
    ensures GetPath(DefaultConfig(), ["knowledge", "cache", "enabled"]) == Some(JBool(true))
  {
    KnowledgeCache();
    CacheEntries();
    PathOf3(DefaultConfig(), "knowledge", KnowledgeDefaults(), "cache", CacheDefaults(), "enabled", JBool(true));
  }

  /** The knowledge cache holds at most 1000 entries by default. */
  lemma DefaultCacheSize()
    ensures GetPath(DefaultConfig(), ["knowledge", "cache", "max_size"]) == Some(JInt(1000))
  {
    KnowledgeCache();
    CacheEntries();
    PathOf3(DefaultConfig(), "knowledge", KnowledgeDefaults(), "cache", CacheDefaults(), "max_size", JInt(1000));
  }

  /** The language model answers with at most 4000 tokens by default. */
  lemma DefaultMaxTokens()
    ensures GetPath(DefaultConfig(), ["llm", "max_tokens"]) == Some(JInt(4000))
  {
    LlmSection();
    LlmEntries();
    PathOf2(DefaultConfig(), "llm", LlmDefaults(), "max_tokens", JInt(4000));
  }

  /** The language model samples at temperature 0.7 by default. */
  lemma DefaultTemperature()
    ensures GetPath(DefaultConfig(), ["llm", "temperature"]) == Some(JFloat(0.7))
  {
    LlmSection();
    LlmEntries();
    PathOf2(DefaultConfig(), "llm", LlmDefaults(), "temperature", JFloat(0.7));
  }

  // ---------------------------------------------------------------------------
  // Deep merge

  /** The value a key ends with: nested dictionaries merge, anything else is replaced. */
  function Combine(prior: Option<Json>, value: Json): Json
    requires value.JObj? ==> forall p | p in value.fields :: p.1 < value
    decreases value, 1
  {
    if prior.Some? && prior.value.JObj? && value.JObj? then JObj(MergeFields(value, prior.value.fields, value.fields))
    else value
  }

  /** `deep_merge(base, update)` applied to the pairs of `update` in order. */
  function MergeFields(ghost parent: Json, base: Record, update: Record): Record
    requires forall p | p in update :: p.1 < parent
    decreases parent, 0, |update|
  {
    if update == [] then base
    else
      var prefix := update[..|update| - 1];
      var (key, value) := update[|update| - 1];
      assert update[|update| - 1] in update;
      assert forall p | p in prefix :: p in update;
      var merged := MergeFields(parent, base, prefix);
      Put(merged, key, Combine(Get(merged, key), value))
  }

  function Merge(base: Record, update: Record): Record {
    MergeFields(JObj(update), base, update)
  }

  /** Dictionaries at every depth have distinct keys, as Python's always do. */
  predicate Tidy(j: Json) {
    match j
    case JObj(fields) => DistinctKeys(fields) && forall p | p in fields :: Tidy(p.1)
    case JList(items) => forall x | x in items :: Tidy(x)
    case _ => true
  }

  /**
   * `deep_merge` as the loop it is: each pair of the update is merged into
   * the base in turn, recursing where both sides hold dictionaries.
   */
  method DeepMerge(ghost parent: Json, base: Record, update: Record) returns (merged: Record)
    requires forall p | p in update :: p.1 < parent
    ensures merged == MergeFields(parent, base, update)
    decreases parent
  {
    merged := base;
    var i := 0;
    while i < |update|
      invariant 0 <= i <= |update|
      invariant merged == MergeFields(parent, base, update[..i])
      decreases |update| - i
    {
      var (key, value) := update[i];
      MergeFieldsStep(parent, base, update, i);
      var current := Get(merged, key);
      if current.Some? && current.value.JObj? && value.JObj? {
        var inner := DeepMerge(value, current.value.fields, value.fields);
        merged := Put(merged, key, JObj(inner));
      } else {
        merged := Put(merged, key, value);
      }
      i := i + 1;
    }
    assert update[..i] == update;
  }

  /** One more pair of the update merged in. */
  lemma MergeFieldsStep(parent: Json, base: Record, update: Record, i: nat)
    requires forall p | p in update :: p.1 < parent
    requires i < |update|
    ensures update[i] in update && (forall p | p in update[..i] :: p.1 < parent)
    ensures var merged := MergeFields(parent, base, update[..i]);
      MergeFields(parent, base, update[..i + 1])
        == Put(merged, update[i].0, Combine(Get(merged, update[i].0), update[i].1))
  {
    assert update[..i + 1][..i] == update[..i];
    assert update[..i + 1][i] == update[i];
    assert forall p | p in update[..i + 1] :: p in update;
    assert forall p | p in update[..i] :: p in update;
  }

  // ---------------------------------------------------------------------------
  // Properties of the merge

  /**
   * After a merge, a key of the update holds the combination of the base's
   * value and the update's, and every other key keeps the base's value.
   */
  lemma {:induction false} MergeGet(parent: Json, base: Record, update: Record, k: string)
    requires forall p | p in update :: p.1 < parent
    requires DistinctKeys(update)
    ensures Get(MergeFields(parent, base, update), k) == MergedValue(Get(base, k), Get(update, k))
  {
    if update != [] {
      var prefix := update[..|update| - 1];
      var (key, value) := update[|update| - 1];
      Text.SnocParts(update);
      LastPair(parent, update);
      var merged := MergeFields(parent, base, prefix);
      var c := Combine(Get(merged, key), value);
      assert MergeFields(parent, base, update) == Put(merged, key, c);
      PutGet(merged, key, c, k);
      SnocGet(prefix, key, value, k);
      MergeGet(parent, base, prefix, k);
      if k == key {
        assert !Has(prefix, key);
        MergeGet(parent, base, prefix, key);
        assert Get(merged, key) == Get(base, key);
      }
    }
  }

  /** What a key holds after a merge, from what the base and the update hold. */
  function MergedValue(prior: Option<Json>, update: Option<Json>): Option<Json>
    requires update.Some? && update.value.JObj? ==> forall p | p in update.value.fields :: p.1 < update.value
  {
    match update
    case Some(v) => Some(Combine(prior, v))
    case None => prior
  }

  /** Looking a key up in a record with one more pair at the end. */
  lemma SnocGet(prefix: Record, key: string, value: Json, k: string)
    ensures Get(prefix + [(key, value)], k) ==
      if Has(prefix, k) then Get(prefix, k) else if k == key then Some(value) else None
  {
    if prefix != [] {
      assert (prefix + [(key, value)])[1..] == prefix[1..] + [(key, value)];
      SnocGet(prefix[1..], key, value, k);
    } else {
      assert [(key, value)][1..] == [];
    }
  }

  /** A merge whose keys are all in the base keeps the base's keys and their order. */
  lemma {:induction false} MergeKeysPresent(parent: Json, base: Record, update: Record)
    requires forall p | p in update :: p.1 < parent
    requires forall i :: 0 <= i < |update| ==> Has(base, update[i].0)
    ensures Keys(MergeFields(parent, base, update)) == Keys(base)
  {
    if update != [] {
      var prefix := update[..|update| - 1];
      var (key, value) := update[|update| - 1];
      assert forall p | p in prefix :: p in update;
      assert forall i :: 0 <= i < |prefix| ==> prefix[i] == update[i];
      MergeKeysPresent(parent, base, prefix);
      var merged := MergeFields(parent, base, prefix);
      assert Has(base, key);
      var i :| 0 <= i < |base| && base[i].0 == key;
      assert Keys(merged)[i] == key;
    }
  }

  /** Merging keeps the base's keys distinct. */
  lemma {:induction false} MergeDistinct(parent: Json, base: Record, update: Record)
    requires forall p | p in update :: p.1 < parent
    requires DistinctKeys(base)
    ensures DistinctKeys(MergeFields(parent, base, update))
  {
    if update != [] {
      var prefix := update[..|update| - 1];
      var (key, value) := update[|update| - 1];
      assert forall p | p in prefix :: p in update;
      MergeDistinct(parent, base, prefix);
      var merged := MergeFields(parent, base, prefix);
      PutDistinct(merged, key, Combine(Get(merged, key), value));
    }
  }

  /** Every key of the update is in the merged record. */
  lemma UpdateKeysPresent(base: Record, update: Record)
    requires DistinctKeys(update)
    ensures forall i :: 0 <= i < |update| ==> Has(Merge(base, update), update[i].0)
  {
    forall i | 0 <= i < |update| ensures Has(Merge(base, update), update[i].0) {
      MergeGet(JObj(update), base, update, update[i].0);
      assert Has(update, update[i].0);
    }
  }

  /** Records with distinct keys in the same order and the same lookups are equal. */
  lemma RecordExt(a: Record, b: Record)
    requires DistinctKeys(a) && DistinctKeys(b) && Keys(a) == Keys(b)
    requires forall k :: Get(a, k) == Get(b, k)
    ensures a == b
  {
    forall i | 0 <= i < |a| ensures a[i] == b[i] {
      assert Keys(a)[i] == Keys(b)[i];
      GetAt(a, i);
      GetAt(b, i);
    }
  }

  /** Merging into an empty record gives the update back. */
  lemma MergeEmpty(update: Record)
    requires DistinctKeys(update)
    ensures Merge([], update) == update
  {
    var m := Merge([], update);
    forall k ensures Get(m, k) == Get(update, k) {
      MergeGet(JObj(update), [], update, k);
    }
    MergeDistinct(JObj(update), [], update);
    MergeKeysOrder(JObj(update), update);
    RecordExt(m, update);
  }

  /** Merging into an empty record lists the update's keys in its order. */
  lemma {:induction false} MergeKeysOrder(parent: Json, update: Record)
    requires forall p | p in update :: p.1 < parent
    requires DistinctKeys(update)
    ensures Keys(MergeFields(parent, [], update)) == Keys(update)
  {
    if update != [] {
      var prefix := update[..|update| - 1];
      var (key, value) := update[|update| - 1];
      LastPair(parent, update);
      MergeKeysOrder(parent, prefix);
      var merged := MergeFields(parent, [], prefix);
      SameKeysHas(merged, prefix, key);
    }
  }

  /** A record with distinct keys is its first pairs, with distinct keys, then a pair whose key they lack. */
  lemma LastPair(parent: Json, update: Record)
    requires update != [] && DistinctKeys(update)
    requires forall p | p in update :: p.1 < parent
    ensures var prefix := update[..|update| - 1];
      && (forall p | p in prefix :: p.1 < parent)
      && DistinctKeys(prefix)
      && !Has(prefix, update[|update| - 1].0)
      && Keys(update) == Keys(prefix) + [update[|update| - 1].0]
  {
    PrefixRank(parent, update);
    PrefixDistinct(update);
    PrefixKeys(update);
  }

  lemma PrefixRank(parent: Json, update: Record)
    requires update != [] && forall p | p in update :: p.1 < parent
    ensures forall p | p in update[..|update| - 1] :: p.1 < parent
  {
    var prefix := update[..|update| - 1];
    forall p | p in prefix ensures p.1 < parent {
      var i :| 0 <= i < |prefix| && prefix[i] == p;
      assert update[i] == p;
    }
  }

  lemma PrefixDistinct(update: Record)
    requires update != [] && DistinctKeys(update)
    ensures DistinctKeys(update[..|update| - 1]) && !Has(update[..|update| - 1], update[|update| - 1].0)
  {
    var prefix := update[..|update| - 1];
    var n := |prefix|;
    forall i, j | 0 <= i < j < n ensures prefix[i].0 != prefix[j].0 {
      assert prefix[i] == update[i] && prefix[j] == update[j];
    }
    forall i | 0 <= i < n ensures prefix[i].0 != update[n].0 {
      assert prefix[i] == update[i];
    }
  }

  lemma PrefixKeys(update: Record)
    requires update != []
    ensures Keys(update) == Keys(update[..|update| - 1]) + [update[|update| - 1].0]
  {
    var prefix := update[..|update| - 1];
    var n := |prefix|;
    var ks, kp, ku := Keys(prefix) + [update[n].0], Keys(prefix), Keys(update);
    assert |ku| == |ks|;
    forall i | 0 <= i < |update| ensures ku[i] == ks[i] {
      if i < n {
        assert ks[i] == kp[i] == prefix[i].0 == update[i].0;
      } else {
        assert ks[i] == update[n].0;
      }
    }
  }

  lemma SameKeysHas(a: Record, b: Record, k: string)
    requires Keys(a) == Keys(b)
    ensures Has(a, k) <==> Has(b, k)
  {
    if Has(a, k) {
      var i :| 0 <= i < |a| && a[i].0 == k;
      assert Keys(b)[i] == k;
    }
    if Has(b, k) {
      var i :| 0 <= i < |b| && b[i].0 == k;
      assert Keys(a)[i] == k;
    }
  }

  /** Merging the same update a second time changes nothing. */
  lemma {:induction false} MergeIdempotent(base: Record, update: Record)
    requires Tidy(JObj(base)) && Tidy(JObj(update))
    ensures Merge(Merge(base, update), update) == Merge(base, update)
    decreases JObj(update), 1
  {
    var m := Merge(base, update);
    var mm := Merge(m, update);
    MergeDistinct(JObj(update), base, update);
    MergeDistinct(JObj(update), m, update);
    UpdateKeysPresent(base, update);
    MergeKeysPresent(JObj(update), m, update);
    forall k ensures Get(mm, k) == Get(m, k) {
      MergeAgainAt(base, update, k);
    }
    RecordExt(mm, m);
  }

  /** One key of `MergeIdempotent`. */
  lemma MergeAgainAt(base: Record, update: Record, k: string)
    requires Tidy(JObj(base)) && Tidy(JObj(update))
    ensures Get(Merge(Merge(base, update), update), k) == Get(Merge(base, update), k)
    decreases JObj(update), 0
  {
    var m := Merge(base, update);
    MergeGet(JObj(update), m, update, k);
    MergeGet(JObj(update), base, update, k);
    if Has(update, k) {
      var v := Get(update, k).value;
      var i :| 0 <= i < |update| && update[i] == (k, v);
      assert update[i] in update;
      assert Tidy(v);
      if Has(base, k) {
        var j :| 0 <= j < |base| && base[j] == (k, Get(base, k).value);
        assert base[j] in base;
      }
      CombineTwice(Get(base, k), v);
    }
  }

  /** Combining a value into the result of combining it changes nothing. */
  lemma CombineTwice(prior: Option<Json>, v: Json)
    requires Tidy(v)
    requires prior.Some? ==> Tidy(prior.value)
    requires v.JObj? ==> forall p | p in v.fields :: p.1 < v
    ensures Combine(Some(Combine(prior, v)), v) == Combine(prior, v)
    decreases v, 2
  {
    if v.JObj? {
      if prior.Some? && prior.value.JObj? {
        MergeIdempotent(prior.value.fields, v.fields);
      } else {
        MergeIdempotent([], v.fields);
        MergeEmpty(v.fields);
      }
    }
  }

  /**
   * A nested merge: where the base and the update both hold a dictionary
   * under a key, the result holds their merge, so the base's nested keys
   * that the update does not mention survive.
   */
  lemma MergeNested(base: Record, update: Record, k: string, b: Record, u: Record, k2: string)
    requires DistinctKeys(update)
    requires Get(base, k) == Some(JObj(b)) && Get(update, k) == Some(JObj(u)) && DistinctKeys(u)
    requires !Has(u, k2)
    ensures Get(Merge(base, update), k) == Some(JObj(Merge(b, u)))
    ensures Get(Merge(b, u), k2) == Get(b, k2)
  {
    MergeGet(JObj(update), base, update, k);
    MergeGet(JObj(u), b, u, k2);
  }

  // ---------------------------------------------------------------------------
  // Environment overrides

  /** How an environment value is converted before it is stored. */
  datatype Conversion = AsText | AsBool | AsInt

  /** An environment variable, the configuration path it sets, and its conversion. */
  datatype Override = Override(variable: string, path: seq<string>, conversion: Conversion)

  /** The override table of `load_config`, in its iteration order. */
  const EnvOverrides: seq<Override> := [
    Override("LLM_API_BASE", ["llm", "api_base"], AsText),
    Override("LLM_MODEL", ["llm", "model"], AsText),
    Override("BROWSER_HEADLESS", ["browser", "headless"], AsBool),
    Override("KNOWLEDGE_CACHE_ENABLED", ["knowledge", "cache", "enabled"], AsBool),
    Override("WEB_PORT", ["web", "port"], AsInt)
  ]

  /** `value.lower() in ("true", "yes", "1", "y")`. */
  predicate EnvTrue(raw: string) {
    Text.Lower(raw) in ["true", "yes", "1", "y"]
  }

  lemma LowerTwice(s: string)
    ensures Text.Lower(Text.Lower(s)) == Text.Lower(s)
  {
  }

  /** The boolean conversion ignores letter case. */
  lemma EnvTrueIgnoresCase(raw: string)
    ensures EnvTrue(raw) <==> EnvTrue(Text.Lower(raw))
  {
    LowerTwice(raw);
  }

  /** The spellings of true, in any letter case, and nothing else. */
  lemma EnvTrueSpellings(raw: string)
    ensures EnvTrue(raw) <==>
      (|raw| == 1 && (Text.LowerChar(raw[0]) == '1' || Text.LowerChar(raw[0]) == 'y'))
      || (|raw| == 3 && Text.LowerChar(raw[0]) == 'y' && Text.LowerChar(raw[1]) == 'e' && Text.LowerChar(raw[2]) == 's')
      || (|raw| == 4 && Text.LowerChar(raw[0]) == 't' && Text.LowerChar(raw[1]) == 'r'
          && Text.LowerChar(raw[2]) == 'u' && Text.LowerChar(raw[3]) == 'e')
  {
    var l := Text.Lower(raw);
    if |raw| == 1 {
      assert l == [l[0]];
    } else if |raw| == 3 {
      assert l == [l[0], l[1], l[2]];
    } else if |raw| == 4 {
      assert l == [l[0], l[1], l[2], l[3]];
    }
  }

  predicate IsDigit(c: char) {
    '0' <= c <= '9'
  }

  /** The value of a string of decimal digits. */
  function DigitsValue(s: string): nat
    requires forall i | 0 <= i < |s| :: IsDigit(s[i])
  {
    if s == [] then 0
    else
      assert IsDigit(s[|s| - 1]);
      assert forall i | 0 <= i < |s| - 1 :: s[..|s| - 1][i] == s[i];
      DigitsValue(s[..|s| - 1]) * 10 + (s[|s| - 1] as int - '0' as int)
  }

  /** Digits, with single underscores allowed between them, as Python's `int` accepts. */
  predicate Grouped(s: string) {
    && s != []
    && IsDigit(s[0]) && IsDigit(s[|s| - 1])
    && (forall i | 0 <= i < |s| :: IsDigit(s[i]) || s[i] == '_')
    && (forall i | 0 <= i < |s| - 1 :: s[i] == '_' ==> s[i + 1] != '_')
  }

  /** The digits of a string without its underscores. */
  function DropUnderscores(s: string): (r: string)
    ensures (forall i | 0 <= i < |s| :: IsDigit(s[i]) || s[i] == '_') ==> forall i | 0 <= i < |r| :: IsDigit(r[i])
    ensures (forall i | 0 <= i < |s| :: s[i] != '_') ==> r == s
  {
    if s == [] then [] else (if s[0] == '_' then [] else [s[0]]) + DropUnderscores(s[1..])
  }

  /**
   * `int(value)` on a string: surrounding whitespace, an optional sign, then
   * grouped decimal digits; anything else raises `ValueError` (`None`).
   */
  function ParseInt(raw: string): (r: Option<int>)
    ensures r.Some? ==> Text.Strip(raw) != []
  {
    var t := Text.Strip(raw);
    if t == [] then None
    else
      var negative := t[0] == '-';
      var body := if t[0] == '-' || t[0] == '+' then t[1..] else t;
      if !Grouped(body) then None
      else
        var n: int := DigitsValue(DropUnderscores(body));
        Some(if negative then -n else n)
  }

  lemma {:induction false} DigitsOfNat(n: nat)
    ensures DigitsValue(Text.NatToString(n)) == n
    decreases n
  {
    var s := Text.NatToString(n);
    if n >= 10 {
      DigitsOfNat(n / 10);
      assert s[..|s| - 1] == Text.NatToString(n / 10);
      assert s[|s| - 1] == Text.DigitChar(n % 10);
      DigitCharValue(n % 10);
    } else {
      assert s == [Text.DigitChar(n)];
      assert s[..|s| - 1] == [];
      DigitCharValue(n);
    }
  }

  lemma DigitCharValue(d: nat)
    requires d < 10
    ensures Text.DigitChar(d) as int - '0' as int == d
  {
    assert "0123456789"[d] as int == '0' as int + d by {
      assert forall k | 0 <= k < 10 :: "0123456789"[k] as int == '0' as int + k;
    }
  }

  /** The text `str(n)` parses back to `n`. */
  lemma ParseIntRoundTrip(n: int)
    ensures ParseInt(Text.IntToString(n)) == Some(n)
  {
    var s := Text.IntToString(n);
    var m: nat := if n < 0 then -n else n;
    var digits := Text.NatToString(m);
    NoSpaceEnds(n);
    Text.StripUnchanged(s);
    var body := if s[0] == '-' || s[0] == '+' then s[1..] else s;
    assert body == digits by {
      if n < 0 {
        assert s[1..] == digits;
      } else {
        assert IsDigit(s[0]);
      }
    }
    DigitsGrouped(digits);
    DigitsOfNat(m);
  }

  lemma NoSpaceEnds(n: int)
    ensures var s := Text.IntToString(n);
      !Text.IsSpace(s[0]) && !Text.IsSpace(s[|s| - 1]) && (s[0] == '-' <==> n < 0) && s[0] != '+'
  {
    var s := Text.IntToString(n);
    var digits := Text.NatToString(if n < 0 then -n else n);
    assert s[|s| - 1] == digits[|digits| - 1];
    assert n >= 0 ==> s[0] == digits[0];
  }

  lemma DigitsGrouped(digits: string)
    requires digits != [] && forall i | 0 <= i < |digits| :: '0' <= digits[i] <= '9'
    ensures Grouped(digits) && DropUnderscores(digits) == digits
  {
  }

  /** The environment value as stored: text, a boolean, or an integer (`None` when `int` raises). */
  function Converted(raw: string, conversion: Conversion): (r: Option<Json>)
    ensures conversion == AsText ==> r == Some(JStr(raw))
    ensures conversion == AsBool ==> r == Some(JBool(EnvTrue(raw)))
    ensures conversion == AsInt ==> (r.Some? <==> ParseInt(raw).Some?)
    ensures conversion == AsInt && r.Some? ==> r == Some(JInt(ParseInt(raw).value))
  {
    match conversion
    case AsText => Some(JStr(raw))
    case AsBool => Some(JBool(EnvTrue(raw)))
    case AsInt => if ParseInt(raw).Some? then Some(JInt(ParseInt(raw).value)) else None
  }

  /**
   * `cfg[path[-1]] = value` after walking `cfg = cfg[key]` down the rest of
   * the path: `None` when a step finds no key (`KeyError`) or something that
   * is not a dictionary (`TypeError`).
   */
  function SetPath(config: Record, path: seq<string>, value: Json): Option<Record>
    requires path != []
    decreases |path|, 1
  {
    var stored := Stored(config, path, value);
    if stored.Some? then Some(Put(config, path[0], stored.value)) else None
  }

  /** What the assignment leaves under the path's first key. */
  function Stored(config: Record, path: seq<string>, value: Json): Option<Json>
    requires path != []
    decreases |path|, 0
  {
    if |path| == 1 then Some(value)
    else
      var next := Get(config, path[0]);
      if next.Some? && next.value.JObj? then
        var inner := SetPath(next.value.fields, path[1..], value);
        if inner.Some? then Some(JObj(inner.value)) else None
      else None
  }

  /** After an assignment the path holds the value. */
  lemma {:induction false} SetPathGet(config: Record, path: seq<string>, value: Json)
    requires path != []
    requires SetPath(config, path, value).Some?
    ensures GetPath(SetPath(config, path, value).value, path) == Some(value)
    decreases |path|
  {
    PutGet(config, path[0], Stored(config, path, value).value, path[0]);
    if |path| > 1 {
      SetPathGet(Get(config, path[0]).value.fields, path[1..], value);
    }
  }

  /**
   * The assignment fails exactly when the path's parent is missing or is not
   * a dictionary; a one-key path always succeeds.
   */
  lemma {:induction false} SetPathDefined(config: Record, path: seq<string>, value: Json)
    requires |path| >= 2
    ensures SetPath(config, path, value).Some? <==>
      (var parent := GetPath(config, path[..|path| - 1]); parent.Some? && parent.value.JObj?)
    decreases |path|
  {
    var next := Get(config, path[0]);
    var parent := path[..|path| - 1];
    assert parent[0] == path[0];
    if |path| == 2 {
      assert parent == [path[0]];
      if next.Some? && next.value.JObj? {
        assert SetPath(next.value.fields, path[1..], value).Some?;
      }
    } else {
      assert |parent| >= 2;
      if next.Some? && next.value.JObj? {
        SetPathDefined(next.value.fields, path[1..], value);
        assert parent[1..] == path[1..][..|path| - 2];
      }
    }
  }

  /**
   * Any path that leaves the assigned path at some key, before either ends,
   * keeps its value: the assignment changes only the leaf it names.
   */
  lemma {:induction false} SetPathOther(config: Record, path: seq<string>, value: Json, other: seq<string>, i: nat)
    requires path != [] && SetPath(config, path, value).Some?
    requires i < |path| && i < |other| && other[i] != path[i]
    requires forall k :: 0 <= k < i ==> other[k] == path[k]
    ensures GetPath(SetPath(config, path, value).value, other) == GetPath(config, other)
    decreases i, 1
  {
    if i == 0 {
      SetPathFirst(config, path, value, other);
    } else {
      SetPathBelow(config, path, value, other, i);
    }
  }

  /** The case of `SetPathOther` where the paths share their first key. */
  lemma {:induction false} SetPathBelow(config: Record, path: seq<string>, value: Json, other: seq<string>, i: nat)
    requires path != [] && SetPath(config, path, value).Some?
    requires 0 < i < |path| && i < |other| && other[i] != path[i]
    requires forall k :: 0 <= k < i ==> other[k] == path[k]
    ensures GetPath(SetPath(config, path, value).value, other) == GetPath(config, other)
    decreases i, 0
  {
    assert other[0] == path[0];
    assert forall k :: 0 <= k < i - 1 ==> other[1..][k] == other[k + 1] && path[1..][k] == path[k + 1];
    SetPathInner(config, path, value);
    var fields := Get(config, path[0]).value.fields;
    var inner := SetPath(fields, path[1..], value).value;
    assert other[1..][i - 1] == other[i] && path[1..][i - 1] == path[i];
    SetPathOther(fields, path[1..], value, other[1..], i - 1);
    var r := SetPath(config, path, value).value;
    assert Get(r, other[0]) == Some(JObj(inner)) && Get(config, other[0]) == Some(JObj(fields));
    DescendBoth(r, config, other, inner, fields);
  }

  /** Two configurations whose dictionaries under a path's first key agree on the rest of it agree on the path. */
  lemma DescendBoth(a: Record, b: Record, path: seq<string>, inA: Record, inB: Record)
    requires |path| > 1 && Get(a, path[0]) == Some(JObj(inA)) && Get(b, path[0]) == Some(JObj(inB))
    requires GetPath(inA, path[1..]) == GetPath(inB, path[1..])
    ensures GetPath(a, path) == GetPath(b, path)
  {
    Text.ConsParts(path);
    GetPathStep(a, path[0], path[1..]);
    GetPathStep(b, path[0], path[1..]);
  }

  /** An assignment keeps every path that starts at another top-level key. */
  lemma SetPathFirst(config: Record, path: seq<string>, value: Json, other: seq<string>)
    requires path != [] && SetPath(config, path, value).Some?
    requires other != [] && other[0] != path[0]
    ensures GetPath(SetPath(config, path, value).value, other) == GetPath(config, other)
  {
    PutGet(config, path[0], Stored(config, path, value).value, other[0]);
  }

  /** A longer assignment stores, under its first key, the assignment of the rest one level down. */
  lemma SetPathInner(config: Record, path: seq<string>, value: Json)
    requires |path| > 1 && SetPath(config, path, value).Some?
    ensures var next := Get(config, path[0]);
      && next.Some? && next.value.JObj?
      && SetPath(next.value.fields, path[1..], value).Some?
      && Get(SetPath(config, path, value).value, path[0])
         == Some(JObj(SetPath(next.value.fields, path[1..], value).value))
  {
    var next := Get(config, path[0]);
    var inner := SetPath(next.value.fields, path[1..], value).value;
    PutGet(config, path[0], JObj(inner), path[0]);
  }

  /** One override: an unset variable changes nothing; a set one is converted and assigned. */
  function ApplyOverride(config: Record, o: Override, env: string -> Option<string>): (r: Option<Record>)
    requires o.path != []
    ensures env(o.variable).None? ==> r == Some(config)
    ensures env(o.variable).Some? ==>
      r == (var v := Converted(env(o.variable).value, o.conversion);
            if v.Some? then SetPath(config, o.path, v.value) else None)
  {
    match env(o.variable)
    case None => Some(config)
    case Some(raw) =>
      match Converted(raw, o.conversion)
      case None => None
      case Some(v) => SetPath(config, o.path, v)
  }

  /** The overrides applied in order; the first that raises ends the load. */
  function ApplyOverrides(config: Record, overrides: seq<Override>, env: string -> Option<string>): Option<Record>
    requires forall o | o in overrides :: o.path != []
  {
    if overrides == [] then Some(config)
    else
      var prefix := overrides[..|overrides| - 1];
      assert forall o | o in prefix :: o in overrides;
      assert overrides[|overrides| - 1] in overrides;
      var before := ApplyOverrides(config, prefix, env);
      if before.Some? then ApplyOverride(before.value, overrides[|overrides| - 1], env) else None
  }

  /**
   * The configuration the file gives: the defaults merged with its contents
   * when it holds a non-empty dictionary. An absent or unreadable file, an
   * empty one, and one whose top level is not a dictionary (the merge raises,
   * and the error is logged) all give the defaults.
   */
  function FromFile(fileConfig: Option<Json>): Record {
    MergedOver(DefaultConfig(), fileConfig)
  }

  function MergedOver(base: Record, fileConfig: Option<Json>): Record {
    if fileConfig.Some? && fileConfig.value.JObj? && Truthy(fileConfig.value) then
      Merge(base, fileConfig.value.fields)
    else base
  }

  /** `load_config`: `None` when an override raises. */
  function Loaded(fileConfig: Option<Json>, env: string -> Option<string>): Option<Record> {
    ApplyOverrides(FromFile(fileConfig), EnvOverrides, env)
  }

  /** `load_config` as the sequence of in-place steps it is. */
  method LoadConfig(fileConfig: Option<Json>, env: string -> Option<string>) returns (config: Option<Record>)
    ensures config == Loaded(fileConfig, env)
  {
    var current := MergeFile(DefaultConfig(), fileConfig);
    OverridePaths();
    config := ApplyAll(current, EnvOverrides, env);
  }

  /** `if file_config: deep_merge(config, file_config)`. */
  method MergeFile(base: Record, fileConfig: Option<Json>) returns (merged: Record)
    ensures merged == MergedOver(base, fileConfig)
  {
    merged := base;
    if fileConfig.Some? && fileConfig.value.JObj? && fileConfig.value.fields != [] {
      merged := DeepMerge(fileConfig.value, merged, fileConfig.value.fields);
    }
  }

  lemma OverridePaths()
    ensures forall o | o in EnvOverrides :: o.path != []
  {
  }

  /** The override loop: each set variable is converted and assigned in turn. */
  method ApplyAll(start: Record, overrides: seq<Override>, env: string -> Option<string>) returns (config: Option<Record>)
    requires forall o | o in overrides :: o.path != []
    ensures config == ApplyOverrides(start, overrides, env)
  {
    var current := start;
    var i := 0;
    assert overrides[..0] == [];
    while i < |overrides|
      invariant 0 <= i <= |overrides|
      invariant ApplyOverrides(start, overrides[..i], env) == Some(current)
    {
      ApplyStep(start, overrides, i, env);
      var o := overrides[i];
      var raw := env(o.variable);
      if raw.Some? {
        var value := Converted(raw.value, o.conversion);
        if value.None? {
          ApplyFailed(start, overrides, i + 1, env);
          return None;
        }
        var next := SetPath(current, o.path, value.value);
        if next.None? {
          ApplyFailed(start, overrides, i + 1, env);
          return None;
        }
        current := next.value;
      }
      i := i + 1;
    }
    assert overrides[..i] == overrides;
    config := Some(current);
  }

  lemma ApplyStep(config: Record, overrides: seq<Override>, i: nat, env: string -> Option<string>)
    requires forall o | o in overrides :: o.path != []
    requires i < |overrides|
    ensures overrides[i] in overrides
    ensures ApplyOverrides(config, overrides[..i + 1], env) ==
      var before := ApplyOverrides(config, overrides[..i], env);
      if before.Some? then ApplyOverride(before.value, overrides[i], env) else None
  {
    assert overrides[..i + 1][..i] == overrides[..i];
    assert forall o | o in overrides[..i + 1] :: o in overrides;
  }

  /** Once an override raises, so does every longer run of overrides. */
  lemma {:induction false} ApplyFailed(config: Record, overrides: seq<Override>, n: nat, env: string -> Option<string>)
    requires forall o | o in overrides :: o.path != []
    requires n <= |overrides| && ApplyOverrides(config, overrides[..n], env).None?
    ensures ApplyOverrides(config, overrides, env).None?
    decreases |overrides| - n
  {
    if n < |overrides| {
      assert overrides[..n + 1][..n] == overrides[..n];
      assert forall o | o in overrides[..n + 1] :: o in overrides;
      ApplyFailed(config, overrides, n + 1, env);
    } else {
      assert overrides[..n] == overrides;
    }
  }

  /** A `WEB_PORT` that is not an integer makes `load_config` raise. */
  lemma BadPortRaises(fileConfig: Option<Json>, env: string -> Option<string>)
    requires env("WEB_PORT").Some? && ParseInt(env("WEB_PORT").value).None?
    ensures Loaded(fileConfig, env).None?
  {
    assert EnvOverrides[4] == Override("WEB_PORT", ["web", "port"], AsInt);
  }

  /** When `load_config` returns and `WEB_PORT` is set, the port is that integer. */
  lemma PortOverride(fileConfig: Option<Json>, env: string -> Option<string>)
    requires env("WEB_PORT").Some? && Loaded(fileConfig, env).Some?
    ensures ParseInt(env("WEB_PORT").value).Some?
    ensures GetPath(Loaded(fileConfig, env).value, ["web", "port"]) == Some(JInt(ParseInt(env("WEB_PORT").value).value))
  {
    OverridePaths();
    assert EnvOverrides[|EnvOverrides| - 1] == Override("WEB_PORT", ["web", "port"], AsInt);
    LastOverrideSets(FromFile(fileConfig), EnvOverrides, env);
  }

  /** The last override, when its variable is set and the load returns, holds its converted value. */
  lemma LastOverrideSets(config: Record, overrides: seq<Override>, env: string -> Option<string>)
    requires forall o | o in overrides :: o.path != []
    requires overrides != [] && ApplyOverrides(config, overrides, env).Some?
    requires env(overrides[|overrides| - 1].variable).Some?
    ensures var o := overrides[|overrides| - 1];
      var v := Converted(env(o.variable).value, o.conversion);
      v.Some? && GetPath(ApplyOverrides(config, overrides, env).value, o.path) == Some(v.value)
  {
    var prefix := overrides[..|overrides| - 1];
    var o := overrides[|overrides| - 1];
    assert o in overrides;
    assert forall x | x in prefix :: x in overrides;
    var before := ApplyOverrides(config, prefix, env).value;
    var v := Converted(env(o.variable).value, o.conversion);
    SetPathGet(before, o.path, v.value);
  }

  /** With no file and no variables set, `load_config` gives the defaults. */
  lemma NothingSetGivesDefaults(env: string -> Option<string>)
    requires forall o | o in EnvOverrides :: env(o.variable).None?
    ensures Loaded(None, env) == Some(DefaultConfig())
  {
    UnsetKeeps(DefaultConfig(), EnvOverrides, env);
  }

  lemma {:induction false} UnsetKeeps(config: Record, overrides: seq<Override>, env: string -> Option<string>)
    requires forall o | o in overrides :: o.path != [] && env(o.variable).None?
    ensures ApplyOverrides(config, overrides, env) == Some(config)
  {
    if overrides != [] {
      var prefix := overrides[..|overrides| - 1];
      assert forall o | o in prefix :: o in overrides;
      assert overrides[|overrides| - 1] in overrides;
      UnsetKeeps(config, prefix, env);
    }
  }
}
