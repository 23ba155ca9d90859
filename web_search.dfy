/**
 * The web-search knowledge source (knowledge/sources/web_search.py): the
 * endpoint chosen for the configured engine, the site restriction added to
 * MCP queries, the dispatch between the Google and Bing APIs and the
 * simulated results used without an API key.
 *
 * The search APIs are oracles from the request they are sent to the decoded
 * JSON body (`None` when the request fails or the status is not 200).
 */
module WebSearch {
  import opened Wrappers
  import opened Values
  import Text
  import Urls
  import Mcp

  const GoogleUrl := "https://www.googleapis.com/customsearch/v1"
  const BingUrl := "https://api.bing.microsoft.com/v7.0/search"

  /** The Google Custom Search request: key, engine id, query, page size and the safe-search flag. */
  datatype GoogleRequest = GoogleRequest(key: string, cx: string, q: string, num: int, safe: bool)
  /** The Bing request: query, count and the safe-search flag. */
  datatype BingRequest = BingRequest(q: string, count: int, safe: bool)

  type GoogleApi = GoogleRequest -> Option<Json>
  type BingApi = BingRequest -> Option<Json>

  /** `api_urls.get(engine, api_urls["google"])`. */
  function ApiUrl(engine: string): (r: string)
    ensures engine == "bing" ==> r == BingUrl
    ensures engine != "bing" ==> r == GoogleUrl
  {
    if engine == "google" then GoogleUrl
    else if engine == "bing" then BingUrl
    else GoogleUrl
  }

  /**
   * The query `_handle_mcp_query` sends: a non-empty site is appended as
   * "site:<site>", separated by one space unless the query already ends in one.
   */
  function SiteQuery(query: string, site: string): (r: string)
    ensures site == "" ==> r == query
    ensures site != "" ==> Text.EndsWith(r, "site:" + site) && Text.StartsWith(r, query)
    ensures site != "" ==> |r| == |query| + (if Text.EndsWith(query, " ") then 0 else 1) + 5 + |site|
    ensures site != "" && !Text.EndsWith(query, " ") ==> r[|query|] == ' '
  {
    if site == "" then query
    else
      var spaced := if Text.EndsWith(query, " ") then query else query + " ";
      assert (spaced + ("site:" + site))[..|query|] == query;
      assert (spaced + ("site:" + site))[|spaced|..] == "site:" + site;
      spaced + ("site:" + site)
  }

  /** A query ending in a space gets no second one. */
  lemma SiteAfterSpace(query: string, site: string)
    requires site != "" && Text.EndsWith(query, " ")
    ensures SiteQuery(query, site) == query + "site:" + site
  {
  }

  /** One API hit as a result record; `None` when the hit is not a dictionary. */
  function ApiHit(item: Json, titleKey: string, urlKey: string, engine: string): Option<Record> {
    if item.JObj? then
      Some([("title", GetOr(item.fields, titleKey, JStr(""))),
            ("url", GetOr(item.fields, urlKey, JStr(""))),
            ("snippet", GetOr(item.fields, "snippet", JStr(""))),
            ("source", JStr(engine))])
    else None
  }

  function GoogleHit(item: Json): Option<Record> {
    ApiHit(item, "title", "link", "google")
  }

  function BingHit(item: Json): Option<Record> {
    ApiHit(item, "name", "url", "bing")
  }

  /**
   * `for item in items[:max_results]`: only a list yields records; slicing
   * or iterating anything else raises, which the API method answers with `[]`.
   */
  function HitList(items: Option<Json>, maxResults: int, hit: Json -> Option<Record>): (r: seq<Record>)
    ensures maxResults >= 0 ==> |r| <= maxResults
    ensures items.Some? && items.value.JList? ==> |r| <= |items.value.items|
  {
    if items.None? || !items.value.JList? then []
    else Traverse(Text.PyTake(items.value.items, maxResults), hit).GetOr([])
  }

  /** `_query_google_api`: at most `max_results` records, each marked "google". */
  function GoogleResults(reply: Option<Json>, maxResults: int): (r: seq<Record>)
    ensures maxResults >= 0 ==> |r| <= maxResults
  {
    if reply.None? then []
    else HitList(PyGet(reply.value, "items", JList([])), maxResults, GoogleHit)
  }

  /** `_query_bing_api`: the `webPages.value` list, at most `max_results` records, each marked "bing". */
  function BingResults(reply: Option<Json>, maxResults: int): (r: seq<Record>)
    ensures maxResults >= 0 ==> |r| <= maxResults
  {
    if reply.None? then []
    else
      match PyGet(reply.value, "webPages", JObj([]))
      case None => []
      case Some(pages) => HitList(PyGet(pages, "value", JList([])), maxResults, BingHit)
  }

  /** Every record an API parser returns names the engine it came from. */
  lemma HitsMarked(items: Option<Json>, maxResults: int, titleKey: string, urlKey: string, engine: string, i: int)
    requires 0 <= i < |HitList(items, maxResults, item => ApiHit(item, titleKey, urlKey, engine))|
    ensures var r := HitList(items, maxResults, item => ApiHit(item, titleKey, urlKey, engine))[i];
      |r| == 4 && r[3] == ("source", JStr(engine))
  {
    var hit := item => ApiHit(item, titleKey, urlKey, engine);
    var s := Text.PyTake(items.value.items, maxResults);
    assert hit(s[i]) == Some(HitList(items, maxResults, hit)[i]);
  }

  /** The page size Google is asked for: never more than 10. */
  function GooglePageSize(maxResults: int): (r: int)
    ensures r <= 10 && r <= maxResults && (r == 10 || r == maxResults)
  {
    if maxResults < 10 then maxResults else 10
  }

  function Simulated(title: string, url: string, snippet: string): Record {
    [("title", JStr(title)), ("url", JStr(url)), ("snippet", JStr(snippet)), ("source", JStr("simulated"))]
  }

  /**
   * One canned result around the query: the title is `titleHead + query +
   * titleTail`, the url `urlHead + quote(query)` and the snippet
   * `snippetHead + query + snippetTail`.
   */
  datatype Template = Template(titleHead: string, titleTail: string, urlHead: string, snippetHead: string, snippetTail: string)

  /** The five templates of `_simulate_search_results`, in order. */
  const Templates: seq<Template> := [
    Template("About ", " - Overview and Information", "https://example.com/about-",
             "Comprehensive information about ", ". Learn about the history, applications, and future developments in this field."),
    Template("", " - Latest Research and Developments", "https://research-journal.example/articles/",
             "The latest research findings related to ", ". Recent studies have shown significant advancements in understanding and applying these concepts."),
    Template("Understanding ", " - A Complete Guide", "https://guide.example/topics/",
             "A complete guide to understanding ", ". This comprehensive resource covers all aspects from basic principles to advanced applications."),
    Template("", " in Modern Applications", "https://tech-review.example/modern-",
             "How ", " is being used in modern applications across various industries. Case studies and examples of successful implementations."),
    Template("The Future of ", " - Trends and Predictions", "https://future-trends.example/topics/",
             "Expert predictions about the future developments in ", ". Analysis of current trends and their implications for the next decade.")
  ]

  /** A template filled in with the query, as a record marked "simulated". */
  function Fill(t: Template, query: string): (r: Record)
    ensures |r| == 4 && r[3] == ("source", JStr("simulated"))
    ensures r[0] == ("title", JStr(t.titleHead + query + t.titleTail))
    ensures r[1] == ("url", JStr(t.urlHead + Urls.Quote(query, "/")))
    ensures r[2] == ("snippet", JStr(t.snippetHead + query + t.snippetTail))
  {
    Simulated(t.titleHead + query + t.titleTail, t.urlHead + Urls.Quote(query, "/"), t.snippetHead + query + t.snippetTail)
  }

  /** The canned results, one per template. */
  function SimulatedAll(query: string): (r: seq<Record>)
    ensures |r| == |Templates|
    ensures forall i :: 0 <= i < |r| ==> r[i] == Fill(Templates[i], query)
  {
    seq(|Templates|, i requires 0 <= i < |Templates| => Fill(Templates[i], query))
  }

  /** `_simulate_search_results`: the first `max_results` canned records (Python's slice, so a negative count drops from the end). */
  function SimulateResults(query: string, maxResults: int): (r: seq<Record>)
    ensures |Templates| == 5
    ensures maxResults >= 0 ==> |r| == if maxResults < 5 then maxResults else 5
    ensures maxResults < 0 ==> |r| == if maxResults > -5 then 5 + maxResults else 0
    ensures forall i :: 0 <= i < |r| ==> |r[i]| == 4 && r[i][3] == ("source", JStr("simulated"))
    ensures forall i :: 0 <= i < |r| ==> r[i][0] == ("title", JStr(Templates[i].titleHead + query + Templates[i].titleTail))
    ensures forall i :: 0 <= i < |r| ==> r[i][1] == ("url", JStr(Templates[i].urlHead + Urls.Quote(query, "/")))
    ensures forall i :: 0 <= i < |r| ==> r[i][2] == ("snippet", JStr(Templates[i].snippetHead + query + Templates[i].snippetTail))
  {
    Text.PyTake(SimulatedAll(query), maxResults)
  }

  /** The results `query` returns for a configured source with a session. */
  function Dispatch(apiKey: string, searchId: string, engine: string, query: string, maxResults: int, safeSearch: bool,
                    google: GoogleApi, bing: BingApi): seq<Record> {
    if apiKey == "" then SimulateResults(query, maxResults)
    else if engine == "google" then GoogleResults(google(GoogleRequest(apiKey, searchId, query, GooglePageSize(maxResults), safeSearch)), maxResults)
    else if engine == "bing" then BingResults(bing(BingRequest(query, maxResults, safeSearch)), maxResults)
    else []
  }

  /** With a key but an engine that is neither Google nor Bing, there are no results. */
  lemma UnsupportedEngine(apiKey: string, searchId: string, engine: string, query: string, maxResults: int,
                          safeSearch: bool, google: GoogleApi, bing: BingApi)
    requires apiKey != "" && engine != "google" && engine != "bing"
    ensures Dispatch(apiKey, searchId, engine, query, maxResults, safeSearch, google, bing) == []
  {
  }

  /** A non-negative `max_results` bounds what any path returns. */
  lemma DispatchBound(apiKey: string, searchId: string, engine: string, query: string, maxResults: int,
                      safeSearch: bool, google: GoogleApi, bing: BingApi)
    requires maxResults >= 0
    ensures |Dispatch(apiKey, searchId, engine, query, maxResults, safeSearch, google, bing)| <= maxResults
  {
  }

  /** The parameter schema `initialize` registers for the "web_search" context. */
  /** The parameter `key` is text whenever it is present. */
  predicate TextParameter(parameters: Record, key: string) {
    Get(parameters, key).Some? ==> Get(parameters, key).value.JStr?
  }

  /** `parameters.get(key, "")` for a text parameter. */
  function TextOr(parameters: Record, key: string): (r: string)
    requires TextParameter(parameters, key)
    ensures !Has(parameters, key) ==> r == ""
    ensures Has(parameters, key) ==> Get(parameters, key) == Some(JStr(r))
  {
    match Get(parameters, key)
    case None => ""
    case Some(v) => v.s
  }

  /** Absent parameters take the defaults `""`, `""` and true. */
  lemma McpDefaults(parameters: Record)
    requires !Has(parameters, "query") && !Has(parameters, "site") && !Has(parameters, "safe_search")
    ensures TextParameter(parameters, "query") && TextOr(parameters, "query") == ""
    ensures TextParameter(parameters, "site") && SiteQuery(TextOr(parameters, "query"), TextOr(parameters, "site")) == ""
    ensures Truthy(GetOr(parameters, "safe_search", JBool(true)))
  {
  }

  const Schema: Json := JObj([
    ("type", JStr("object")),
    ("properties", JObj([
      ("query", JObj([("type", JStr("string")), ("description", JStr("Search query for web search"))])),
      ("site", JObj([("type", JStr("string")), ("description", JStr("Limit search to a specific site (e.g., 'site:example.com')")), ("default", JStr(""))])),
      ("safe_search", JObj([("type", JStr("boolean")), ("description", JStr("Whether to enable safe search")), ("default", JBool(true))]))])),
    ("required", JList([JStr("query")]))])

  /** The identity of the source's `_handle_mcp_query`. */
  const Handler: Mcp.HandlerId := "web_search._handle_mcp_query"

  class WebSearchSource {
    var engine: string
    var apiKey: string
    var searchId: string
    var apiUrl: string
    var userAgent: string
    var session: bool
    var headers: seq<(string, string)>
    var lastRequestTime: int

    /** The configured engine ("google" by default) and its endpoint, Google's for an unknown engine. */
    constructor (engineSetting: Option<string>, key: Option<string>, id: Option<string>, agent: Option<string>)
      ensures engine == engineSetting.GetOr("google") && apiKey == key.GetOr("") && searchId == id.GetOr("")
      ensures apiUrl == ApiUrl(engine) && userAgent == agent.GetOr("ResearchAssistant/1.0 (research project)")
      ensures !session && headers == [] && lastRequestTime == 0
    {
      engine := engineSetting.GetOr("google");
      apiKey := key.GetOr("");
      searchId := id.GetOr("");
      apiUrl := ApiUrl(engineSetting.GetOr("google"));
      userAgent := agent.GetOr("ResearchAssistant/1.0 (research project)");
      session := false;
      headers := [];
      lastRequestTime := 0;
    }

    /**
     * `initialize`: the session headers are the user agent, plus the subscription
     * key for Bing with a key; then the "web_search" context is registered with
     * its schema and handler.
     */
    method Initialize(mcp: Mcp.McpClient)
      requires mcp.Valid()
      modifies this`session, this`headers, mcp`contexts
      ensures session && mcp.Valid()
      ensures mcp.contexts == Mcp.Assign(old(mcp.contexts), "web_search", Mcp.Entry("web_search", Schema, Some(Handler)))
      ensures mcp.GetContextSchema("web_search") == Mcp.Local(Some(Mcp.Entry("web_search", Schema, Some(Handler))))
      ensures forall other :: other != "web_search" ==> Mcp.Lookup(mcp.contexts, other) == Mcp.Lookup(old(mcp.contexts), other)
      ensures headers == [("User-Agent", userAgent)] + if apiKey != "" && engine == "bing" then [("Ocp-Apim-Subscription-Key", apiKey)] else []
    {
      headers := [("User-Agent", userAgent)];
      if apiKey != "" {
        if engine == "google" {
        } else if engine == "bing" {
          headers := headers + [("Ocp-Apim-Subscription-Key", apiKey)];
        }
      }
      session := true;
      mcp.RegisterContext("web_search", Schema, Some(Handler));
    }

    method Close()
      modifies this`session
      ensures !session
    {
      session := false;
    }

    /**
     * `query`: nothing, and no change, without a session; otherwise the
     * dispatched results, with the request time recorded as `finished`.
     */
    method Query(query: string, maxResults: int, safeSearch: bool, finished: int, google: GoogleApi, bing: BingApi)
      returns (results: seq<Record>)
      modifies this`lastRequestTime
      ensures !session ==> results == [] && lastRequestTime == old(lastRequestTime)
      ensures session ==> results == Dispatch(apiKey, searchId, engine, query, maxResults, safeSearch, google, bing)
      ensures session ==> lastRequestTime == finished
    {
      if !session {
        return [];
      }
      if apiKey != "" {
        if engine == "google" {
          results := GoogleResults(google(GoogleRequest(apiKey, searchId, query, GooglePageSize(maxResults), safeSearch)), maxResults);
        } else if engine == "bing" {
          results := BingResults(bing(BingRequest(query, maxResults, safeSearch)), maxResults);
        } else {
          results := [];
        }
      } else {
        results := SimulateResults(query, maxResults);
      }
      lastRequestTime := finished;
    }

    /**
     * `_handle_mcp_query`: the parameters' query and site (each "" when absent)
     * and their safe_search (true when absent, taken by truthiness) give the
     * site-restricted query, answered as `{"results": [...]}`.
     */
    method HandleMcpQuery(parameters: Record, maxResults: int, finished: int, google: GoogleApi, bing: BingApi)
      returns (answer: Json)
      requires TextParameter(parameters, "query") && TextParameter(parameters, "site")
      modifies this`lastRequestTime
      ensures answer == JObj([("results", JList(Objects(
        if session then Dispatch(apiKey, searchId, engine, SiteQuery(TextOr(parameters, "query"), TextOr(parameters, "site")), maxResults,
                                 Truthy(GetOr(parameters, "safe_search", JBool(true))), google, bing)
        else [])))])
      ensures session ==> lastRequestTime == finished
    {
      var query := TextOr(parameters, "query");
      var site := TextOr(parameters, "site");
      var safeSearch := Truthy(GetOr(parameters, "safe_search", JBool(true)));
      var q := query;
      if site != "" {
        if !Text.EndsWith(q, " ") {
          q := q + " ";
        }
        q := q + "site:" + site;
      }
      assert q == SiteQuery(query, site);
      var results := Query(q, maxResults, safeSearch, finished, google, bing);
      answer := JObj([("results", JList(Objects(results)))]);
    }
  }
}
