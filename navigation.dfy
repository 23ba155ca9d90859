/**
 * The navigation gatekeeper (browser/navigation.py): the robots.txt cache,
 * the per-domain rate limiter, the site path rules and the URL helpers.
 *
 * Time is an integer clock passed in by the caller; waits are returned
 * rather than slept. Fetching robots.txt is an oracle giving the body of a
 * 200 response or `None`, and the Robots Exclusion Protocol verdict on a
 * parsed body (RFC 9309) is an opaque predicate.
 */
module Navigation {
  import opened Wrappers
  import opened Text
  import opened Urls

  // ---------------------------------------------------------------------------
  // robots.txt cache

  /** `robots.txt` as fetched: the body of a 200 reply, or never read. */
  datatype Ruleset = Parsed(body: string) | Unread

  /** The fetch of a `robots.txt` URL: the body on status 200, `None` otherwise or on error. */
  type RobotsFetch = string -> Option<string>

  /** The protocol's verdict on a parsed body for a user agent and a URL. */
  type RobotsVerdict = (string, string, string) -> bool

  const DefaultTtl := 3600

  /**
   * `RobotFileParser.can_fetch`: a parser whose `parse` was never called has
   * no `last_checked` time and refuses every URL.
   */
  function Allows(rules: Ruleset, userAgent: string, url: string, verdict: RobotsVerdict): bool {
    match rules
    case Unread => false
    case Parsed(body) => verdict(body, userAgent, url)
  }

  function RobotsUrl(u: Url): string {
    u.scheme + "://" + u.netloc + "/robots.txt"
  }

  function Fetched(body: Option<string>): Ruleset {
    match body
    case Some(text) => Parsed(text)
    case None => Unread
  }

  class RobotsParser {
    var parsers: map<string, Ruleset>
    var stamps: map<string, int>
    var ttl: int

    constructor (cacheTtl: int)
      ensures parsers == map[] && stamps == map[] && ttl == cacheTtl
    {
      parsers := map[];
      stamps := map[];
      ttl := cacheTtl;
    }

    /** The cached parser for `host` is still young at time `now`. */
    predicate Fresh(host: string, now: int)
      reads this
    {
      host in parsers && now - (if host in stamps then stamps[host] else 0) < ttl
    }

    /**
     * `can_fetch`: a URL without a host is allowed; a cached parser younger
     * than the TTL answers without a fetch; otherwise robots.txt is fetched,
     * and the new parser is cached with the time of the check.
     */
    method CanFetch(url: string, userAgent: string, now: int, fetch: RobotsFetch, verdict: RobotsVerdict)
      returns (ok: bool, fetched: bool)
      modifies this`parsers, this`stamps
      ensures var u := Parse(url);
        if u.netloc == "" then
          ok && !fetched && parsers == old(parsers) && stamps == old(stamps)
        else if old(Fresh(u.netloc, now)) then
          ok == Allows(old(parsers)[u.netloc], userAgent, url, verdict)
          && !fetched && parsers == old(parsers) && stamps == old(stamps)
        else
          var rules := Fetched(fetch(RobotsUrl(u)));
          && ok == Allows(rules, userAgent, url, verdict) && fetched
          && parsers == old(parsers)[u.netloc := rules]
          && stamps == old(stamps)[u.netloc := now]
    {
      var u := Parse(url);
      if u.netloc == "" {
        return true, false;
      }
      var domain := u.netloc;
      if Fresh(domain, now) {
        return Allows(parsers[domain], userAgent, url, verdict), false;
      }
      var rules := Fetched(fetch(RobotsUrl(u)));
      parsers := parsers[domain := rules];
      stamps := stamps[domain := now];
      ok := Allows(rules, userAgent, url, verdict);
      fetched := true;
    }

    /** `clear_cache`. */
    method ClearCache()
      modifies this`parsers, this`stamps
      ensures parsers == map[] && stamps == map[]
    {
      parsers := map[];
      stamps := map[];
    }
  }

  /** Right after a check of a host, a check of the same host within the TTL uses the cache. */
  lemma CheckedIsFresh(parsers: map<string, Ruleset>, stamps: map<string, int>, host: string,
                       rules: Ruleset, checked: int, now: int, ttl: int)
    requires now - checked < ttl
    ensures var p := parsers[host := rules];
      var s := stamps[host := checked];
      host in p && now - (if host in s then s[host] else 0) < ttl
  {
  }

  /** A body that was never parsed refuses every URL, whatever the protocol would say. */
  lemma UnreadRefuses(userAgent: string, url: string, verdict: RobotsVerdict)
    ensures !Allows(Fetched(None), userAgent, url, verdict)
  {
  }

  // ---------------------------------------------------------------------------
  // Rate limiter

  const Window := 60

  /** The timestamps less than a minute old, in their order. */
  function Recent(stamps: seq<int>, now: int): (r: seq<int>)
    ensures |r| <= |stamps|
    ensures forall t :: t in r <==> t in stamps && now - t < Window
  {
    if stamps == [] then []
    else if now - stamps[0] < Window then [stamps[0]] + Recent(stamps[1..], now)
    else Recent(stamps[1..], now)
  }

  function Min(s: seq<int>): (r: int)
    requires s != []
    ensures r in s && forall t :: t in s ==> r <= t
  {
    if |s| == 1 then s[0]
    else
      var m := Min(s[1..]);
      assert forall t :: t in s ==> t == s[0] || t in s[1..];
      if s[0] <= m then s[0] else m
  }

  function Max(s: seq<int>): (r: int)
    requires s != []
    ensures r in s && forall t :: t in s ==> t <= r
  {
    if |s| == 1 then s[0]
    else
      var m := Max(s[1..]);
      assert forall t :: t in s ==> t == s[0] || t in s[1..];
      if s[0] >= m then s[0] else m
  }

  /** The two waits `acquire` sleeps for: the window wait, then the spacing delay. */
  datatype Waits = Waits(window: int, delay: int)

  /**
   * The waits for a domain whose recent timestamps are `recent`: `None` is
   * the `ValueError` of `min([])` when the limit is 0 or less and the window
   * is empty.
   */
  function AcquireWaits(recent: seq<int>, now: int, perMinute: int, delay: int): (r: Option<Waits>)
    ensures r.None? <==> (|recent| >= perMinute && recent == [])
    ensures r.Some? ==> r.value.window >= 0 && r.value.delay >= 0
    ensures r.Some? && r.value.window > 0 ==>
      |recent| >= perMinute && now + r.value.window == Min(recent) + Window
    ensures r.Some? && r.value.delay > 0 ==>
      recent != [] && now + r.value.delay == Max(recent) + delay
    ensures r.Some? && |recent| < perMinute ==> r.value.window == 0
    ensures r.Some? && |recent| >= perMinute ==>
      r.value.window == (if Min(recent) + Window - now > 0 then Min(recent) + Window - now else 0)
    ensures r.Some? && recent != [] && now - Max(recent) < delay ==> r.value.delay == delay - (now - Max(recent))
    ensures r.Some? && (recent == [] || now - Max(recent) >= delay) ==> r.value.delay == 0
  {
    if |recent| >= perMinute && recent == [] then None
    else
      var window := if |recent| >= perMinute then
        (var w := Window - (now - Min(recent)); if w > 0 then w else 0) else 0;
      var spacing := if recent != [] && now - Max(recent) < delay then delay - (now - Max(recent)) else 0;
      Some(Waits(window, spacing))
  }

  class RateLimiter {
    var perMinute: int
    var delay: int
    var stamps: map<string, seq<int>>

    constructor (requestsPerMinute: int, delayBetweenRequests: int)
      ensures perMinute == requestsPerMinute && delay == delayBetweenRequests && stamps == map[]
    {
      perMinute := requestsPerMinute;
      delay := delayBetweenRequests;
      stamps := map[];
    }

    /** The domain's timestamps, [] before its first request. */
    function History(domain: string): seq<int>
      reads this
    {
      if domain in stamps then stamps[domain] else []
    }

    /**
     * `acquire`: forgets the domain's timestamps a minute old or more, works
     * out the waits, and records the clock reading `finished` taken after
     * them. No other domain's timestamps change; when `min` raises, the
     * pruned list stays and nothing is appended.
     */
    method Acquire(url: string, now: int, finished: int) returns (r: Option<Waits>)
      modifies this`stamps
      ensures var domain := Parse(url).netloc;
        var recent := Recent(old(History(domain)), now);
        && r == AcquireWaits(recent, now, perMinute, delay)
        && stamps == old(stamps)[domain := if r.Some? then recent + [finished] else recent]
    {
      var domain := Parse(url).netloc;
      var recent := Recent(History(domain), now);
      r := AcquireWaits(recent, now, perMinute, delay);
      if r.Some? {
        stamps := stamps[domain := recent + [finished]];
      } else {
        stamps := stamps[domain := recent];
      }
    }
  }

  /** Pruning keeps the surviving timestamps in their order: it distributes over concatenation. */
  lemma {:induction false} RecentConcat(a: seq<int>, b: seq<int>, now: int)
    ensures Recent(a + b, now) == Recent(a, now) + Recent(b, now)
  {
    if a != [] {
      assert (a + b)[1..] == a[1..] + b;
      RecentConcat(a[1..], b, now);
    } else {
      assert a + b == b;
    }
  }

  /** A timestamp recorded at `now` is in the window at any later time less than a minute on. */
  lemma RecordedStaysRecent(recent: seq<int>, finished: int, later: int)
    requires later - finished < Window
    ensures Recent(recent + [finished], later) == Recent(recent, later) + [finished]
  {
    RecentConcat(recent, [finished], later);
    assert [finished][1..] == [];
  }

  // ---------------------------------------------------------------------------
  // Site rules

  datatype SiteRule = SiteRule(domain: string, allowed: seq<string>, disallowed: seq<string>)

  const SiteRules: seq<SiteRule> :=
    [SiteRule("wikipedia.org", ["/wiki/"], ["/wiki/Special:", "/wiki/Talk:", "/wiki/User:"])]

  predicate StartsWithAny(path: string, prefixes: seq<string>) {
    exists i :: 0 <= i < |prefixes| && StartsWith(path, prefixes[i])
  }

  /** One rule's verdict on a path: no disallowed prefix, and an allowed one when any are listed. */
  predicate RuleAllows(rule: SiteRule, path: string) {
    !StartsWithAny(path, rule.disallowed) && (rule.allowed == [] || StartsWithAny(path, rule.allowed))
  }

  /** Every rule whose domain occurs in the host must allow the path. */
  predicate SiteAllows(rules: seq<SiteRule>, host: string, path: string) {
    forall i :: 0 <= i < |rules| && Contains(host, rules[i].domain) ==> RuleAllows(rules[i], path)
  }

  /** Wikipedia hosts only admit article paths outside the special, talk and user namespaces. */
  lemma WikipediaRules(host: string, path: string)
    requires Contains(host, "wikipedia.org")
    ensures SiteAllows(SiteRules, host, path) <==>
      StartsWith(path, "/wiki/") && !StartsWith(path, "/wiki/Special:")
      && !StartsWith(path, "/wiki/Talk:") && !StartsWith(path, "/wiki/User:")
  {
    var rule := SiteRules[0];
    assert rule.disallowed == ["/wiki/Special:", "/wiki/Talk:", "/wiki/User:"];
    assert StartsWithAny(path, rule.disallowed) <==>
      StartsWith(path, "/wiki/Special:") || StartsWith(path, "/wiki/Talk:") || StartsWith(path, "/wiki/User:")
    by {
      assert rule.disallowed[0] == "/wiki/Special:" && rule.disallowed[1] == "/wiki/Talk:"
        && rule.disallowed[2] == "/wiki/User:";
    }
    assert StartsWithAny(path, rule.allowed) <==> StartsWith(path, "/wiki/") by {
      assert rule.allowed[0] == "/wiki/";
    }
  }

  /** A host that no rule names is allowed every path. */
  lemma UnlistedHost(host: string, path: string)
    requires !Contains(host, "wikipedia.org")
    ensures SiteAllows(SiteRules, host, path)
  {
  }

  // ---------------------------------------------------------------------------
  // The manager

  /** What `prepare_navigation` ends in: refused, ready after the waits, or `min` raising in the limiter. */
  datatype Prepared = Refused | Ready(waits: Waits) | LimiterFailed

  class NavigationManager {
    var userAgent: string
    var respectRobots: bool
    var robots: RobotsParser
    var limiter: RateLimiter

    constructor (agent: string, respectRobotsTxt: bool, requestsPerMinute: int, delayBetweenRequests: int)
      ensures userAgent == agent && respectRobots == respectRobotsTxt
      ensures fresh(robots) && fresh(limiter)
      ensures robots.parsers == map[] && robots.stamps == map[] && robots.ttl == DefaultTtl
      ensures limiter.perMinute == requestsPerMinute && limiter.delay == delayBetweenRequests
      ensures limiter.stamps == map[]
    {
      userAgent := agent;
      respectRobots := respectRobotsTxt;
      robots := new RobotsParser(DefaultTtl);
      limiter := new RateLimiter(requestsPerMinute, delayBetweenRequests);
    }

    /**
     * The verdict of `can_navigate` in the current state: a URL without scheme
     * or host is refused; with robots checking on, the cached parser when it
     * is fresh, or else the fetched one, must allow it; then the site rules
     * must allow its path.
     */
    predicate Admits(url: string, now: int, fetch: RobotsFetch, verdict: RobotsVerdict)
      reads this, robots
    {
      var u := Parse(url);
      && u.scheme != "" && u.netloc != ""
      && (respectRobots ==>
            var rules := if robots.Fresh(u.netloc, now) then robots.parsers[u.netloc] else Fetched(fetch(RobotsUrl(u)));
            Allows(rules, userAgent, url, verdict))
      && SiteAllows(SiteRules, u.netloc, u.path)
    }

    /** `can_navigate`: the robots cache changes only when robots.txt is consulted. */
    method CanNavigate(url: string, now: int, fetch: RobotsFetch, verdict: RobotsVerdict) returns (ok: bool)
      modifies robots`parsers, robots`stamps
      ensures ok == old(Admits(url, now, fetch, verdict))
      ensures var u := Parse(url);
        (u.scheme == "" || u.netloc == "" || !respectRobots) ==>
          robots.parsers == old(robots.parsers) && robots.stamps == old(robots.stamps)
      ensures var u := Parse(url);
        (u.scheme != "" && u.netloc != "" && respectRobots) ==>
          if old(robots.Fresh(u.netloc, now)) then
            robots.parsers == old(robots.parsers) && robots.stamps == old(robots.stamps)
          else
            && robots.parsers == old(robots.parsers)[u.netloc := Fetched(fetch(RobotsUrl(u)))]
            && robots.stamps == old(robots.stamps)[u.netloc := now]
    {
      var u := Parse(url);
      if u.scheme == "" || u.netloc == "" {
        return false;
      }
      if respectRobots {
        var allowed, _ := robots.CanFetch(url, userAgent, now, fetch, verdict);
        if !allowed {
          return false;
        }
      }
      ok := SiteAllows(SiteRules, u.netloc, u.path);
    }

    /**
     * `prepare_navigation`: the rate limiter is consulted only when navigation
     * is allowed; the robots cache changes exactly as in `can_navigate`.
     */
    method PrepareNavigation(url: string, now: int, finished: int, fetch: RobotsFetch, verdict: RobotsVerdict)
      returns (r: Prepared)
      modifies robots`parsers, robots`stamps, limiter`stamps
      ensures r.Refused? <==> !old(Admits(url, now, fetch, verdict))
      ensures r.Refused? ==> limiter.stamps == old(limiter.stamps)
      ensures !r.Refused? ==>
        var domain := Parse(url).netloc;
        var recent := Recent(old(limiter.History(domain)), now);
        var waits := AcquireWaits(recent, now, limiter.perMinute, limiter.delay);
        && (r.LimiterFailed? <==> waits.None?)
        && (r.Ready? ==> waits == Some(r.waits))
        && limiter.stamps == old(limiter.stamps)[domain := if waits.Some? then recent + [finished] else recent]
      ensures var u := Parse(url);
        (u.scheme == "" || u.netloc == "" || !respectRobots) ==>
          robots.parsers == old(robots.parsers) && robots.stamps == old(robots.stamps)
      ensures var u := Parse(url);
        (u.scheme != "" && u.netloc != "" && respectRobots) ==>
          if old(robots.Fresh(u.netloc, now)) then
            robots.parsers == old(robots.parsers) && robots.stamps == old(robots.stamps)
          else
            && robots.parsers == old(robots.parsers)[u.netloc := Fetched(fetch(RobotsUrl(u)))]
            && robots.stamps == old(robots.stamps)[u.netloc := now]
    {
      ghost var before := limiter.stamps;
      var ok := CanNavigate(url, now, fetch, verdict);
      assert limiter.stamps == before;
      if !ok {
        return Refused;
      }
      var waits := limiter.Acquire(url, now, finished);
      r := if waits.Some? then Ready(waits.value) else LimiterFailed;
    }
  }

  // ---------------------------------------------------------------------------
  // URL helpers

  /** `re.sub(r'/+', '/', path)`: every run of slashes becomes one. */
  function CollapseSlashes(s: string): (r: string)
    ensures NoDoubleSlash(r)
    ensures NoDoubleSlash(s) ==> r == s
    ensures (r != [] && r[0] == '/') <==> (s != [] && s[0] == '/')
    ensures forall c :: !HasChar(s, c) ==> !HasChar(r, c)
    decreases |s|
  {
    if |s| <= 1 then s
    else
      var rest := CollapseSlashes(s[1..]);
      assert s == [s[0]] + s[1..];
      assert forall c :: !HasChar(s, c) ==> !HasChar(s[1..], c);
      if s[0] == '/' && s[1] == '/' then rest
      else
        assert forall c :: !HasChar(s, c) ==> !HasChar([s[0]] + rest, c) by {
          forall c | !HasChar(s, c) ensures !HasChar([s[0]] + rest, c) {
            NoCharConcat([s[0]], rest, c);
          }
        }
        [s[0]] + rest
  }

  /** Drops one trailing slash unless the path is just "/". */
  function TrimSlash(path: string): string {
    if EndsWith(path, "/") && |path| > 1 then path[..|path| - 1] else path
  }

  /** The components `normalize_url` keeps: the path collapsed and trimmed, the fragment dropped. */
  function NormalizeParts(u: Url): Url {
    Url(u.scheme, u.netloc, TrimSlash(CollapseSlashes(u.path)), u.query, "")
  }

  /** `normalize_url`: "https://" is prefixed when the URL has no scheme. */
  function Normalize(url: string): string {
    var p := Parse(url);
    var u := if p.scheme == "" then Parse("https://" + url) else p;
    Unparse(NormalizeParts(u))
  }

  /** `is_same_domain`: equal authorities. */
  predicate IsSameDomain(url1: string, url2: string) {
    Parse(url1).netloc == Parse(url2).netloc
  }

  /** `extract_domain`. */
  function ExtractDomain(url: string): string {
    Parse(url).netloc
  }

  const DefaultExtensions: seq<string> :=
    ["html", "htm", "xhtml", "php", "asp", "aspx", "jsp", "pdf", "doc", "docx", "txt", "rtf", "json", "xml", ""]

  /** The lower-cased text after the last "." of the path, or "" without one. */
  function Extension(path: string): string {
    if HasChar(path, '.') then
      var parts := Split(path, '.');
      Lower(parts[|parts| - 1])
    else ""
  }

  /** `is_allowed_filetype`: an absent or empty list stands for the defaults. */
  predicate IsAllowedFiletype(url: string, allowed: Option<seq<string>>) {
    var extensions := if allowed.None? || allowed.value == [] then DefaultExtensions else allowed.value;
    Extension(Parse(url).path) in extensions
  }

  // ---------------------------------------------------------------------------
  // Properties of the URL helpers

  lemma TrimSlashShape(path: string)
    requires NoDoubleSlash(path)
    ensures var t := TrimSlash(path);
      && NoDoubleSlash(t) && (EndsWith(t, "/") ==> t == "/")
      && (forall c :: !HasChar(path, c) ==> !HasChar(t, c))
      && ((t != [] && t[0] == '/') <==> (path != [] && path[0] == '/'))
      && (t == [] <==> path == [])
  {
    var t := TrimSlash(path);
    forall c | !HasChar(path, c) ensures !HasChar(t, c) {
      NoCharSlice(path, c, 0, |t|);
      assert t == path[0..|t|];
    }
    if EndsWith(path, "/") && |path| > 1 {
      assert path[|path| - 1] == '/';
      assert t[|t| - 1] == path[|path| - 2] != '/';
    }
  }

  /** The components `normalize_url` writes out are canonical, with a scheme. */
  lemma NormalizedCanonical(u: Url)
    requires u.scheme != ""
    requires ValidScheme(u.scheme) && Lower(u.scheme) == u.scheme
    requires forall k :: 0 <= k < |u.netloc| ==> !Delim(u.netloc[k])
    requires !HasChar(u.path, '?') && !HasChar(u.path, '#')
    requires u.netloc != "" && u.path != "" ==> u.path[0] == '/'
    requires !HasChar(u.query, '#')
    ensures Canonical(NormalizeParts(u))
  {
    TrimSlashShape(CollapseSlashes(u.path));
  }

  /** The parse that `normalize_url` works on: the URL's own, or that of "https://" + URL. */
  function Working(url: string): Url {
    var p := Parse(url);
    if p.scheme == "" then Parse("https://" + url) else p
  }

  lemma WorkingShape(url: string)
    ensures Canonical(NormalizeParts(Working(url)))
    ensures Normalize(url) == Unparse(NormalizeParts(Working(url)))
    ensures Parse(url).scheme == "" ==> Working(url).scheme == "https"
  {
    var p := Parse(url);
    var u := Working(url);
    if p.scheme == "" {
      HttpsPrefix(url);
      ParseShape("https://" + url);
    } else {
      ParseShape(url);
    }
    NormalizedCanonical(u);
  }

  /**
   * A normalised URL has a scheme ("https" when the input had none), a path
   * without "//" that ends in "/" only when it is "/", and no fragment.
   */
  lemma NormalizeShape(url: string)
    ensures var n := Parse(Normalize(url));
      && n.scheme != "" && (Parse(url).scheme == "" ==> n.scheme == "https")
      && NoDoubleSlash(n.path) && (EndsWith(n.path, "/") ==> n.path == "/")
      && n.fragment == ""
  {
    WorkingShape(url);
    var c := NormalizeParts(Working(url));
    RoundTrip(c);
    TrimSlashShape(CollapseSlashes(Working(url).path));
  }

  /** Normalising a normalised URL changes nothing. */
  lemma NormalizeIdempotent(url: string)
    ensures Normalize(Normalize(url)) == Normalize(url)
  {
    WorkingShape(url);
    var c := NormalizeParts(Working(url));
    RoundTrip(c);
    var n := Normalize(url);
    assert Parse(n) == c;
    assert Working(n) == c;
    TrimSlashShape(CollapseSlashes(Working(url).path));
    assert TrimSlash(CollapseSlashes(c.path)) == c.path;
    assert NormalizeParts(c) == c;
    WorkingShape(n);
  }

  /** Same-domain is an equivalence, and it compares the extracted domains. */
  lemma SameDomainEquivalence(a: string, b: string, c: string)
    ensures IsSameDomain(a, a)
    ensures IsSameDomain(a, b) <==> IsSameDomain(b, a)
    ensures IsSameDomain(a, b) && IsSameDomain(b, c) ==> IsSameDomain(a, c)
    ensures IsSameDomain(a, b) <==> ExtractDomain(a) == ExtractDomain(b)
  {
  }

  /** The last piece of a split is the text after the last separator. */
  lemma {:induction false} SplitLast(s: string, sep: char)
    requires HasChar(s, sep)
    ensures var parts := Split(s, sep);
      exists i :: 0 <= i < |s| && s[i] == sep && parts[|parts| - 1] == s[i + 1..]
    decreases |s|
  {
    var parts := Split(s, sep);
    var rest := Split(s[1..], sep);
    if HasChar(s[1..], sep) {
      SplitLast(s[1..], sep);
      var j :| 0 <= j < |s[1..]| && s[1..][j] == sep && rest[|rest| - 1] == s[1..][j + 1..];
      assert s[j + 1] == sep && s[1..][j + 1..] == s[j + 2..];
      assert |rest| >= 2 by {
        if |rest| == 1 {
          SplitNoSepRev(s[1..], sep);
        }
      }
      assert parts[|parts| - 1] == rest[|rest| - 1];
    } else {
      SplitNoSep(s[1..], sep);
      assert s[0] == sep;
      assert parts == [""] + rest;
      assert s[1..] == s[0 + 1..];
    }
  }

  /** A split into one piece means the separator does not occur. */
  lemma {:induction false} SplitNoSepRev(s: string, sep: char)
    requires |Split(s, sep)| == 1
    ensures !HasChar(s, sep)
    decreases |s|
  {
    if s != [] {
      var rest := Split(s[1..], sep);
      assert s[0] != sep;
      SplitNoSepRev(s[1..], sep);
      assert forall k | 1 <= k < |s| :: s[k] == s[1..][k - 1];
    }
  }

  /** The extension is the lower-cased text after the last "."; a path without "." is always allowed by default. */
  lemma ExtensionShape(url: string)
    ensures var path := Parse(url).path;
      && (HasChar(path, '.') ==>
            exists i :: 0 <= i < |path| && path[i] == '.' && !HasChar(path[i + 1..], '.')
                        && Extension(path) == Lower(path[i + 1..]))
      && (!HasChar(path, '.') ==> Extension(path) == "" && IsAllowedFiletype(url, None))
  {
    var path := Parse(url).path;
    ExtensionAfterLastDot(path);
    if !HasChar(path, '.') {
      assert DefaultExtensions[14] == "";
    }
  }

  lemma ExtensionAfterLastDot(path: string)
    ensures HasChar(path, '.') ==>
      exists i :: 0 <= i < |path| && path[i] == '.' && !HasChar(path[i + 1..], '.')
                  && Extension(path) == Lower(path[i + 1..])
    ensures !HasChar(path, '.') ==> Extension(path) == ""
  {
    if HasChar(path, '.') {
      SplitLast(path, '.');
      var parts := Split(path, '.');
      var i :| 0 <= i < |path| && path[i] == '.' && parts[|parts| - 1] == path[i + 1..];
      assert !HasChar(parts[|parts| - 1], '.');
      assert !HasChar(path[i + 1..], '.') && Extension(path) == Lower(path[i + 1..]);
    }
  }

}
