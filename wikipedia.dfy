/**
 * The Wikipedia knowledge source (knowledge/sources/wikipedia.py): a search
 * request, then one extract request per hit, each reply shaped into an
 * article record.
 *
 * The MediaWiki API is an oracle that takes the endpoint and the request's
 * own argument (the search text and limit, or the title) and gives the
 * decoded JSON body, or `None` when the request fails or the status is not 200.
 */
module Wikipedia {
  import opened Wrappers
  import opened Values
  import Text
  import Mcp

  const DefaultApiUrl := "https://en.wikipedia.org/w/api.php"

  type SearchApi = (string, Json, int) -> Option<Json>
  type ExtractApi = (string, Json) -> Option<Json>

  /** The endpoint for a language other than English. */
  function LanguageApiUrl(language: Json): string {
    "https://" + PyStr(language) + ".wikipedia.org/w/api.php"
  }

  /** One formatted search hit; `None` when the hit is not a dictionary and `.get` raises. */
  function Hit(item: Json): (r: Option<Record>)
    ensures r.Some? <==> item.JObj?
    ensures r.Some? ==> |r.value| == 3 && Keys(r.value) == ["title", "snippet", "pageid"]
    ensures item.JObj? ==>
      && r.Some?
      && Get(r.value, "title") == Some(GetOr(item.fields, "title", JStr("")))
      && Get(r.value, "snippet") == Some(GetOr(item.fields, "snippet", JStr("")))
      && Get(r.value, "pageid") == Some(GetOr(item.fields, "pageid", JInt(0)))
  {
    if item.JObj? then
      var d := [("title", GetOr(item.fields, "title", JStr(""))),
                ("snippet", GetOr(item.fields, "snippet", JStr(""))),
                ("pageid", GetOr(item.fields, "pageid", JInt(0)))];
      assert d[1..][1..] == [d[2]];
      Some(d)
    else None
  }

  /** The `query.search` list of a reply, or `None` when a `.get` or the iteration raises. */
  function SearchItems(body: Json): Option<seq<Json>> {
    match PyGet(body, "query", JObj([]))
    case None => None
    case Some(q) =>
      match PyGet(q, "search", JList([]))
      case None => None
      case Some(s) => Iterate(s)
  }

  /** `_search_wikipedia`: the formatted hits, or `[]` when the request fails or anything raises. */
  function SearchHits(reply: Option<Json>): (r: seq<Record>)
    ensures forall i :: 0 <= i < |r| ==> |r[i]| == 3 && Keys(r[i]) == ["title", "snippet", "pageid"]
    ensures reply.None? || SearchItems(reply.value).None? ==> r == []
    ensures reply.Some? && SearchItems(reply.value).Some? ==>
      var items := SearchItems(reply.value).value;
      if forall k :: 0 <= k < |items| ==> items[k].JObj? then
        |r| == |items| && forall i :: 0 <= i < |r| ==> Hit(items[i]) == Some(r[i])
      else r == []
  {
    if reply.None? then []
    else
      match SearchItems(reply.value)
      case None => []
      case Some(items) => Traverse(items, Hit).GetOr([])
  }

  /** The text after the first ':', which is `split(":", 1)[1]`. */
  function AfterColon(s: string): string
    requires Text.HasChar(s, ':')
  {
    s[Text.IndexOf(s, ':') + 1..]
  }

  /**
   * What one `categories` entry contributes: its title with the prefix up to
   * the first ':' removed; `Some(None)` when it has no title, `None` when
   * reading it raises.
   */
  function CategoryTitle(c: Json): Option<Option<Json>> {
    match PyIn("title", c)
    case None => None
    case Some(false) => Some(None)
    case Some(true) =>
      if !c.JObj? then None
      else
        var t := Get(c.fields, "title").value;
        match PyIn(":", t)
        case None => None
        case Some(false) => Some(Some(t))
        case Some(true) =>
          if t.JStr? then
            Text.ContainsChar(t.s, ':');
            Some(Some(JStr(AfterColon(t.s))))
          else None
  }

  /** What one `links` entry contributes: its title, if it has one. */
  function LinkTitle(l: Json): Option<Option<Json>> {
    match PyIn("title", l)
    case None => None
    case Some(false) => Some(None)
    case Some(true) => if l.JObj? then Some(Some(Get(l.fields, "title").value)) else None
  }

  /** A category title loses everything up to and including its first ':'. */
  lemma CategoryPrefixStripped(prefix: string, rest: string)
    requires !Text.HasChar(prefix, ':')
    ensures CategoryTitle(JObj([("title", JStr(prefix + ":" + rest))])) == Some(Some(JStr(rest)))
  {
    var s := prefix + ":" + rest;
    var c := JObj([("title", JStr(s))]);
    assert Get(c.fields, "title") == Some(JStr(s));
    assert s[..|prefix|] == prefix && s[|prefix|] == ':';
    Text.IndexOfAt(s, ':', |prefix|);
    Text.ContainsChar(s, ':');
    assert PyIn(":", JStr(s)) == Some(true);
    assert AfterColon(s) == s[|prefix| + 1..] == rest;
  }

  /** A category title without ':' is kept as it is. */
  lemma CategoryUnprefixed(title: string)
    requires !Text.HasChar(title, ':')
    ensures CategoryTitle(JObj([("title", JStr(title))])) == Some(Some(JStr(title)))
  {
    var c := [("title", JStr(title))];
    assert c[0].0 == "title";
    Text.ContainsChar(title, ':');
  }

  /** Only entries with a title contribute, to categories and links alike. */
  lemma UntitledSkipped(entry: Record)
    requires !Has(entry, "title")
    ensures CategoryTitle(JObj(entry)) == Some(None) && LinkTitle(JObj(entry)) == Some(None)
  {
  }

  /** The article record, in the order the code writes its keys. */
  function Article(title: Json, pageId: string, content: Json, url: Json, categories: seq<Json>, links: seq<Json>): Record {
    [("title", title), ("pageid", JStr(pageId)), ("content", content), ("url", url),
     ("categories", JList(categories)), ("links", JList(links)), ("source", JStr("wikipedia"))]
  }

  /** The first page of a reply's `query.pages`, or `None` when there is none or a step raises. */
  function FirstPage(body: Json): (r: Option<(string, Record)>)
  {
    match PyGet(body, "query", JObj([]))
    case None => None
    case Some(q) =>
      match PyGet(q, "pages", JObj([]))
      case None => None
      case Some(pages) =>
        if !Truthy(pages) || !pages.JObj? then None
        else if !pages.fields[0].1.JObj? then None
        else Some((pages.fields[0].0, pages.fields[0].1.fields))
  }

  /** The titles a `for entry in page_data.get(key, [])` loop collects; `None` when a step raises. */
  function EntryTitles(data: Record, key: string, part: Json -> Option<Option<Json>>): Option<seq<Json>> {
    match Iterate(GetOr(data, key, JList([])))
    case None => None
    case Some(entries) => Gather(entries, part)
  }

  /** Each key of the article record holds the value it was built from. */
  lemma ArticleFields(title: Json, pageId: string, content: Json, url: Json, categories: seq<Json>, links: seq<Json>)
    ensures var a := Article(title, pageId, content, url, categories, links);
      && |a| == 7
      && Get(a, "title") == Some(title) && Get(a, "pageid") == Some(JStr(pageId))
      && Get(a, "content") == Some(content) && Get(a, "url") == Some(url)
      && Get(a, "categories") == Some(JList(categories)) && Get(a, "links") == Some(JList(links))
      && Get(a, "source") == Some(JStr("wikipedia"))
  {
    var a := Article(title, pageId, content, url, categories, links);
    var keys := ["title", "pageid", "content", "url", "categories", "links", "source"];
    assert forall i :: 0 <= i < 7 ==> a[i].0 == keys[i];
    KeyAt(a, keys, 0);
    KeyAt(a, keys, 1);
    KeyAt(a, keys, 2);
    KeyAt(a, keys, 3);
    KeyAt(a, keys, 4);
    KeyAt(a, keys, 5);
    KeyAt(a, keys, 6);
  }

  /** The article's keys are the seven distinct names, so `get` finds the entry at each position. */
  lemma KeyAt(a: Record, keys: seq<string>, i: int)
    requires keys == ["title", "pageid", "content", "url", "categories", "links", "source"]
    requires |a| == 7 && 0 <= i < 7 && forall j :: 0 <= j < 7 ==> a[j].0 == keys[j]
    ensures Get(a, keys[i]) == Some(a[i].1)
  {
    assert keys[0][0] == 't' && keys[1][0] == 'p' && keys[2][0] == 'c' && keys[3][0] == 'u';
    assert keys[4][0] == 'c' && keys[5][0] == 'l' && keys[6][0] == 's';
    assert |keys[2]| != |keys[4]|;
    GetFirst(a, i);
  }

  /**
   * `_get_article_extract`: the record of the first page, with its title,
   * page id, extract as content, canonical url, category and link titles, and
   * source "wikipedia"; `[]` (the `{}` the code returns) when the request
   * fails, there is no page, or a step raises.
   */
  function ArticleRecord(reply: Option<Json>): (r: Record)
    ensures r != [] <==>
      && reply.Some? && FirstPage(reply.value).Some?
      && EntryTitles(FirstPage(reply.value).value.1, "categories", CategoryTitle).Some?
      && EntryTitles(FirstPage(reply.value).value.1, "links", LinkTitle).Some?
    ensures r != [] ==>
      var page := FirstPage(reply.value).value;
      var data := page.1;
      && |r| == 7
      && Get(r, "title") == Some(GetOr(data, "title", JStr("")))
      && Get(r, "pageid") == Some(JStr(page.0))
      && Get(r, "content") == Some(GetOr(data, "extract", JStr("")))
      && Get(r, "url") == Some(GetOr(data, "canonicalurl", JStr("")))
      && Get(r, "categories") == Some(JList(EntryTitles(data, "categories", CategoryTitle).value))
      && Get(r, "links") == Some(JList(EntryTitles(data, "links", LinkTitle).value))
      && Get(r, "source") == Some(JStr("wikipedia"))
  {
    if reply.None? then []
    else
      match FirstPage(reply.value)
      case None => []
      case Some(page) =>
        var data := page.1;
        match EntryTitles(data, "categories", CategoryTitle)
        case None => []
        case Some(categories) =>
          match EntryTitles(data, "links", LinkTitle)
          case None => []
          case Some(links) =>
            var title, content, url := GetOr(data, "title", JStr("")), GetOr(data, "extract", JStr("")), GetOr(data, "canonicalurl", JStr(""));
            ArticleFields(title, page.0, content, url, categories, links);
            Article(title, page.0, content, url, categories, links)
  }

  /**
   * A reply with no first page gives no article: a body that is not an
   * object, a `query` that is missing or not an object, a `pages` that is
   * missing, empty or not an object.
   */
  lemma NoPagesNoArticle(body: Json)
    requires
      || !body.JObj?
      || !Has(body.fields, "query")
      || !Get(body.fields, "query").value.JObj?
      || !Has(Get(body.fields, "query").value.fields, "pages")
      || !Get(Get(body.fields, "query").value.fields, "pages").value.JObj?
      || Get(Get(body.fields, "query").value.fields, "pages").value.fields == []
    ensures FirstPage(body).None? && ArticleRecord(Some(body)) == []
  {
  }

  /** The titles the extract requests are sent for. */
  function Titles(hits: seq<Record>): (r: seq<Json>)
    requires forall i :: 0 <= i < |hits| ==> |hits[i]| > 0
    ensures |r| == |hits|
    ensures forall i :: 0 <= i < |hits| ==> r[i] == hits[i][0].1
  {
    if hits == [] then [] else [hits[0][0].1] + Titles(hits[1..])
  }

  /** The article an extract request for a title gives. */
  function ArticleOf(api: string, extract: ExtractApi): Json -> Record {
    title => ArticleRecord(extract(api, title))
  }

  /** The articles `query` keeps: the non-empty records, in hit order. */
  function Articles(titles: seq<Json>, article: Json -> Record): (r: seq<Record>)
    ensures |r| <= |titles|
    ensures forall i :: 0 <= i < |r| ==> r[i] != []
  {
    if titles == [] then []
    else
      var init := Articles(titles[..|titles| - 1], article);
      var a := article(titles[|titles| - 1]);
      if a != [] then init + [a] else init
  }

  /** The positions of the titles whose article is kept. */
  function ArticleIndices(titles: seq<Json>, article: Json -> Record): (idx: seq<int>)
    ensures forall k :: 0 <= k < |idx| ==> 0 <= idx[k] < |titles| && article(titles[idx[k]]) != []
    ensures forall k, l :: 0 <= k < l < |idx| ==> idx[k] < idx[l]
    ensures forall j :: 0 <= j < |titles| && article(titles[j]) != [] ==> j in idx
  {
    if titles == [] then []
    else
      var init := titles[..|titles| - 1];
      var prefix := ArticleIndices(init, article);
      assert forall k :: 0 <= k < |init| ==> init[k] == titles[k];
      if article(titles[|titles| - 1]) != [] then prefix + [|titles| - 1] else prefix
  }

  /**
   * The articles keep hit order: article k is the record of title
   * `ArticleIndices[k]`, these indices increase strictly, and every title
   * whose record is non-empty is among them.
   */
  lemma {:induction false} ArticlesInOrder(titles: seq<Json>, article: Json -> Record)
    ensures var r, idx := Articles(titles, article), ArticleIndices(titles, article);
      |r| == |idx| && forall k :: 0 <= k < |r| ==> r[k] == article(titles[idx[k]])
  {
    if titles != [] {
      var init := titles[..|titles| - 1];
      ArticlesInOrder(init, article);
      var idx := ArticleIndices(init, article);
      assert forall k :: 0 <= k < |idx| ==> init[idx[k]] == titles[idx[k]];
    }
  }

  /** Every article is the record of one of the hits. */
  lemma {:induction false} ArticleFromHit(titles: seq<Json>, article: Json -> Record, i: int)
    requires 0 <= i < |Articles(titles, article)|
    ensures exists k :: 0 <= k < |titles| && Articles(titles, article)[i] == article(titles[k])
  {
    var init := titles[..|titles| - 1];
    if i < |Articles(init, article)| {
      ArticleFromHit(init, article, i);
      var k :| 0 <= k < |init| && Articles(init, article)[i] == article(init[k]);
      assert titles[k] == init[k];
    }
  }

  /** When every extract succeeds, there is one article per hit. */
  lemma {:induction false} NoArticleLost(titles: seq<Json>, article: Json -> Record)
    requires forall k :: 0 <= k < |titles| ==> article(titles[k]) != []
    ensures |Articles(titles, article)| == |titles|
  {
    if titles != [] {
      var init := titles[..|titles| - 1];
      assert forall k :: 0 <= k < |init| ==> init[k] == titles[k];
      NoArticleLost(init, article);
    }
  }

  /** The `for item in search_results` loop; `[]` when an item raises. */
  method FormatHits(items: seq<Json>) returns (hits: seq<Record>)
    ensures hits == Traverse(items, Hit).GetOr([])
  {
    hits := [];
    var i := 0;
    while i < |items|
      invariant 0 <= i <= |items|
      invariant Traverse(items[..i], Hit) == Some(hits)
    {
      var h := Hit(items[i]);
      if h.None? {
        assert Traverse(items, Hit).None?;
        return [];
      }
      TraverseStep(items, i, Hit, hits);
      hits := hits + [h.value];
      i := i + 1;
    }
    assert items[..i] == items;
  }

  /** A `for entry` loop over categories or links; `None` when an entry raises. */
  method CollectTitles(entries: seq<Json>, part: Json -> Option<Option<Json>>) returns (titles: Option<seq<Json>>)
    ensures titles == Gather(entries, part)
  {
    var out := [];
    var i := 0;
    while i < |entries|
      invariant 0 <= i <= |entries|
      invariant Gather(entries[..i], part) == Some(out)
    {
      GatherStep(entries, i, part, out);
      var p := part(entries[i]);
      if p.None? {
        GatherRaise(entries, i + 1, part);
        return None;
      }
      if p.value.Some? {
        out := out + [p.value.value];
      }
      i := i + 1;
    }
    assert entries[..i] == entries;
    titles := Some(out);
  }

  /** A raise in a prefix is a raise of the whole loop. */
  lemma GatherRaise(entries: seq<Json>, i: int, part: Json -> Option<Option<Json>>)
    requires 0 <= i <= |entries| && Gather(entries[..i], part).None?
    ensures Gather(entries, part).None?
  {
    var k :| 0 <= k < i && part(entries[..i][k]).None?;
    assert entries[k] == entries[..i][k];
  }

  /** `_get_article_extract` on the reply to its request. */
  method GetArticleExtract(reply: Option<Json>) returns (article: Record)
    ensures article == ArticleRecord(reply)
  {
    if reply.None? {
      return [];
    }
    var page := FirstPage(reply.value);
    if page.None? {
      return [];
    }
    var data := page.value.1;
    var cs := Iterate(GetOr(data, "categories", JList([])));
    if cs.None? {
      return [];
    }
    var categories := CollectTitles(cs.value, CategoryTitle);
    if categories.None? {
      return [];
    }
    var ls := Iterate(GetOr(data, "links", JList([])));
    if ls.None? {
      return [];
    }
    var links := CollectTitles(ls.value, LinkTitle);
    if links.None? {
      return [];
    }
    article := Article(GetOr(data, "title", JStr("")), page.value.0, GetOr(data, "extract", JStr("")),
                       GetOr(data, "canonicalurl", JStr("")), categories.value, links.value);
  }

  /** The parameter schema `initialize` registers for the "wikipedia" context. */
  const Schema: Json := JObj([
    ("type", JStr("object")),
    ("properties", JObj([
      ("query", JObj([("type", JStr("string")), ("description", JStr("Search query for Wikipedia"))])),
      ("language", JObj([("type", JStr("string")), ("description", JStr("Language code (e.g., 'en' for English)")), ("default", JStr("en"))]))])),
    ("required", JList([JStr("query")]))])

  /** The identity of the source's `_handle_mcp_query`. */
  const Handler: Mcp.HandlerId := "wikipedia._handle_mcp_query"

  class WikipediaSource {
    var apiUrl: string
    var session: bool

    /** The configured endpoint, English Wikipedia by default; no session yet. */
    constructor (configured: Option<string>)
      ensures apiUrl == configured.GetOr(DefaultApiUrl) && !session
    {
      apiUrl := configured.GetOr(DefaultApiUrl);
      session := false;
    }

    /** `initialize`: a session is opened and the "wikipedia" context registered with its schema and handler. */
    method Initialize(mcp: Mcp.McpClient)
      requires mcp.Valid()
      modifies this`session, mcp`contexts
      ensures session && mcp.Valid()
      ensures mcp.contexts == Mcp.Assign(old(mcp.contexts), "wikipedia", Mcp.Entry("wikipedia", Schema, Some(Handler)))
      ensures mcp.GetContextSchema("wikipedia") == Mcp.Local(Some(Mcp.Entry("wikipedia", Schema, Some(Handler))))
      ensures forall other :: other != "wikipedia" ==> Mcp.Lookup(mcp.contexts, other) == Mcp.Lookup(old(mcp.contexts), other)
    {
      session := true;
      mcp.RegisterContext("wikipedia", Schema, Some(Handler));
    }

    method Close()
      modifies this`session
      ensures !session
    {
      session := false;
    }

    /**
     * `query`: without a session no request is made; otherwise the article
     * of each search hit whose extract request gives one, in hit order.
     */
    method Query(query: Json, maxResults: int, search: SearchApi, extract: ExtractApi) returns (articles: seq<Record>)
      ensures !session ==> articles == []
      ensures session ==> articles == Articles(Titles(SearchHits(search(apiUrl, query, maxResults))), ArticleOf(apiUrl, extract))
    {
      if !session {
        return [];
      }
      var hits := SearchWikipedia(search(apiUrl, query, maxResults));
      var titles := Titles(hits);
      articles := [];
      var i := 0;
      while i < |hits|
        invariant 0 <= i <= |hits|
        invariant articles == Articles(titles[..i], ArticleOf(apiUrl, extract))
      {
        Text.SliceSnoc(titles, i);
        assert titles[..i + 1][..i] == titles[..i];
        var article := GetArticleExtract(extract(apiUrl, hits[i][0].1));
        if article != [] {
          articles := articles + [article];
        }
        i := i + 1;
      }
      assert titles[..i] == titles;
    }

    /**
     * `_handle_mcp_query`: a language other than "en" switches the endpoint
     * for this and every later query; "en" leaves the endpoint as it was.
     */
    method HandleMcpQuery(parameters: Record, maxResults: int, search: SearchApi, extract: ExtractApi)
      returns (answer: Json)
      modifies this`apiUrl
      ensures var language := GetOr(parameters, "language", JStr("en"));
        apiUrl == if language != JStr("en") then LanguageApiUrl(language) else old(apiUrl)
      ensures answer == JObj([("results", JList(Objects(
        if session then Articles(Titles(SearchHits(search(apiUrl, GetOr(parameters, "query", JStr("")), maxResults))), ArticleOf(apiUrl, extract))
        else [])))])
    {
      var query := GetOr(parameters, "query", JStr(""));
      var language := GetOr(parameters, "language", JStr("en"));
      if language != JStr("en") {
        apiUrl := LanguageApiUrl(language);
      }
      var results := Query(query, maxResults, search, extract);
      answer := JObj([("results", JList(Objects(results)))]);
    }
  }

  /** `_search_wikipedia` on the reply to its request. */
  method SearchWikipedia(reply: Option<Json>) returns (hits: seq<Record>)
    ensures hits == SearchHits(reply)
  {
    if reply.None? {
      return [];
    }
    var items := SearchItems(reply.value);
    if items.None? {
      return [];
    }
    hits := FormatHits(items.value);
  }
}
