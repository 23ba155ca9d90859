/**
 * The browser session (browser/browser_session.py): navigation history,
 * the search-engine fallback and search url, the loops that turn result
 * elements into result records, the record of a failed page visit and the
 * screenshot filename.
 *
 * Playwright is outside the model. A navigation's outcome, the elements a
 * selector finds (`None` when the query raises) and the text read from a
 * page are parameters; clocks are integer timestamps passed in.
 */
module Browser {
  import opened Wrappers
  import opened Values
  import Text
  import Urls

  const DefaultUserAgent := "ResearchAssistant/1.0 (+https://example.com/bot; for research)"

  /** The engines `search` has a url for; any other name falls back to Google. */
  function EffectiveEngine(engine: string): (r: string)
    ensures r == "google" || r == "bing" || r == "duckduckgo"
    ensures engine == "google" || engine == "bing" || engine == "duckduckgo" ==> r == engine
  {
    if engine == "google" || engine == "bing" || engine == "duckduckgo" then engine else "google"
  }

  /** The search page for a supported engine and the quoted query. */
  function SearchUrl(engine: string, query: string): (r: string)
    requires engine == "google" || engine == "bing" || engine == "duckduckgo"
  {
    var q := Urls.Quote(query, "/");
    if engine == "google" then "https://www.google.com/search?q=" + q
    else if engine == "bing" then "https://www.bing.com/search?q=" + q
    else "https://duckduckgo.com/?q=" + q
  }

  /** An unknown engine searches Google. */
  lemma UnknownEngineSearchesGoogle(engine: string, query: string)
    requires engine != "google" && engine != "bing" && engine != "duckduckgo"
    ensures EffectiveEngine(engine) == "google"
    ensures SearchUrl(EffectiveEngine(engine), query) == "https://www.google.com/search?q=" + Urls.Quote(query, "/")
  {
  }

  /**
   * One result element: the text of its title element, the `href` of its
   * link and the text of its snippet element, each `None` when the element
   * is missing; `Broken` when reading the element raised.
   */
  datatype Element = Broken | Element(title: Option<string>, href: Option<string>, snippet: Option<string>)

  /** An element the loops keep: readable, with a non-empty href starting with "http". */
  predicate Usable(e: Element) {
    e.Element? && e.href.Some? && e.href.value != "" && Text.StartsWith(e.href.value, "http")
  }

  /** The record a usable element becomes; a missing title reads "No title". */
  function ResultRecord(e: Element, engine: string): (r: Record)
    requires Usable(e)
    ensures |r| == 4 && r[1] == ("url", JStr(e.href.value)) && r[3] == ("source", JStr(engine))
    ensures r[0] == ("title", JStr(if e.title.Some? then e.title.value else "No title"))
  {
    [("title", JStr(e.title.GetOr("No title"))), ("url", JStr(e.href.value)),
     ("snippet", JStr(e.snippet.GetOr(""))), ("source", JStr(engine))]
  }

  /**
   * The records the `_extract_*_results` loop has after the elements `es`:
   * unusable elements are skipped, and once a record has been appended and
   * the count has reached `max` the loop has stopped.
   */
  function Collect(es: seq<Element>, max: int, engine: string): (r: seq<Record>)
    ensures |r| <= |es|
  {
    if es == [] then []
    else
      var front := Collect(es[..|es| - 1], max, engine);
      var e := es[|es| - 1];
      if front != [] && |front| >= max then front
      else if Usable(e) then front + [ResultRecord(e, engine)]
      else front
  }

  /** The loop never returns more than `max` records, and at most one for a non-positive `max`. */
  lemma {:induction false} CollectBound(es: seq<Element>, max: int, engine: string)
    ensures |Collect(es, max, engine)| <= if max >= 1 then max else 1
  {
    if es != [] {
      CollectBound(es[..|es| - 1], max, engine);
    }
  }

  /** Every record comes from a usable element. */
  lemma {:induction false} CollectFromUsable(es: seq<Element>, max: int, engine: string, i: int)
    requires 0 <= i < |Collect(es, max, engine)|
    ensures exists k :: 0 <= k < |es| && Usable(es[k]) && Collect(es, max, engine)[i] == ResultRecord(es[k], engine)
  {
    var front := es[..|es| - 1];
    var r := Collect(es, max, engine);
    if i < |Collect(front, max, engine)| {
      CollectFromUsable(front, max, engine, i);
      var k :| 0 <= k < |front| && Usable(front[k]) && Collect(front, max, engine)[i] == ResultRecord(front[k], engine);
      assert es[k] == front[k];
    } else {
      assert Usable(es[|es| - 1]) && r[i] == ResultRecord(es[|es| - 1], engine);
    }
  }

  /** Below the limit, no usable element is dropped. */
  lemma {:induction false} CollectKeepsUsable(es: seq<Element>, max: int, engine: string)
    requires |es| <= max
    requires forall k :: 0 <= k < |es| ==> Usable(es[k])
    ensures |Collect(es, max, engine)| == |es|
  {
    if es != [] {
      var front := es[..|es| - 1];
      assert forall k :: 0 <= k < |front| ==> front[k] == es[k];
      CollectKeepsUsable(front, max, engine);
    }
  }

  /** The `for element in elements[:max_results]` loop with its `break`. */
  method ExtractResults(elements: seq<Element>, maxResults: int, engine: string) returns (results: seq<Record>)
    ensures results == Collect(Text.PyTake(elements, maxResults), maxResults, engine)
  {
    var es := Text.PyTake(elements, maxResults);
    results := [];
    var i := 0;
    while i < |es|
      invariant 0 <= i <= |es|
      invariant results == Collect(es[..i], maxResults, engine)
      invariant i < |es| ==> !(results != [] && |results| >= maxResults)
      decreases |es| - i
    {
      var e := es[i];
      assert es[..i + 1][..i] == es[..i];
      if e.Element? && e.href.Some? && e.href.value != "" && Text.StartsWith(e.href.value, "http") {
        results := results + [ResultRecord(e, engine)];
        if |results| >= maxResults {
          CollectStopped(es, i + 1, maxResults, engine);
          return;
        }
      }
      i := i + 1;
    }
    assert es[..|es|] == es;
  }

  /** Once the loop has stopped, later elements change nothing. */
  lemma {:induction false} CollectStopped(es: seq<Element>, i: int, max: int, engine: string)
    requires 0 <= i <= |es|
    requires Collect(es[..i], max, engine) != [] && |Collect(es[..i], max, engine)| >= max
    ensures Collect(es, max, engine) == Collect(es[..i], max, engine)
    decreases |es| - i
  {
    if i < |es| {
      var front := es[..|es| - 1];
      assert front[..i] == es[..i];
      CollectStopped(front, i, max, engine);
    } else {
      assert es[..i] == es;
    }
  }

  /** The elements a selector finds, `None` when the query raises. */
  type Selector = string -> Option<seq<Element>>

  /**
   * The result elements of each engine's page: Google tries "div.g" and then
   * "div.tF2Cxc", keeping the first that finds something.
   */
  function Candidates(engine: string, select: Selector): Option<seq<Element>> {
    if engine == "google" then
      match select("div.g")
      case None => None
      case Some(first) => if first != [] then Some(first) else select("div.tF2Cxc")
    else if engine == "bing" then select("li.b_algo")
    else if engine == "duckduckgo" then select("article.result")
    else Some([])
  }

  /** The records `search` returns once the search page has loaded. */
  function PageResults(engine: string, select: Selector, max: int): (r: seq<Record>) {
    match Candidates(engine, select)
    case None => []
    case Some(es) => Collect(Text.PyTake(es, max), max, engine)
  }

  /** Search results respect the limit and carry a "http" url and the engine's name. */
  lemma PageResultsShape(engine: string, select: Selector, max: int, i: int)
    requires 0 <= i < |PageResults(engine, select, max)|
    ensures |PageResults(engine, select, max)| <= if max >= 1 then max else 1
    ensures var r := PageResults(engine, select, max)[i];
      |r| == 4 && r[1].1.JStr? && Text.StartsWith(r[1].1.s, "http") && r[3] == ("source", JStr(engine))
  {
    var es := Text.PyTake(Candidates(engine, select).value, max);
    CollectBound(es, max, engine);
    CollectFromUsable(es, max, engine, i);
  }

  /** What `page.goto` gave: no response, a response with its `ok` flag, or an exception. */
  datatype Navigation = NoResponse | Responded(ok: bool) | GotoRaised

  /** A history entry. */
  datatype HistoryEntry = HistoryEntry(action: string, url: string, timestamp: int)

  /** The characters a screenshot filename keeps: alphanumerics and "._- ". */
  predicate FilenameChar(c: char) {
    Text.IsAlnum(c) || c == '.' || c == '_' || c == '-' || c == ' '
  }

  /** `take_screenshot`'s filename cleaning: every other character becomes "_". */
  function CleanFilename(name: string): (r: string)
    ensures |r| == |name|
    ensures forall i :: 0 <= i < |r| ==> FilenameChar(r[i])
    ensures forall i :: 0 <= i < |r| ==> r[i] == (if FilenameChar(name[i]) then name[i] else '_')
  {
    if name == [] then [] else [if FilenameChar(name[0]) then name[0] else '_'] + CleanFilename(name[1..])
  }

  /** A cleaned name has no path separator, so it always lands inside the screenshots directory. */
  lemma CleanFilenameNoSlash(name: string)
    ensures !Text.HasChar(CleanFilename(name), '/')
  {
  }

  /** `os.path.join(directory, name)` for a name that is not absolute. */
  function PathJoin(directory: string, name: string): string {
    if directory == "" || Text.EndsWith(directory, "/") then directory + name else directory + "/" + name
  }

  class BrowserSession {
    var headless: bool
    var userAgent: string
    var timeout: int
    var screenshotsDir: string
    var page: bool
    var history: seq<HistoryEntry>

    /** An unset or empty user agent takes the default; the timeout is kept in milliseconds. */
    constructor (headlessSetting: bool, agent: Option<string>, timeoutSeconds: int, directory: string)
      ensures headless == headlessSetting && screenshotsDir == directory
      ensures userAgent == if agent.Some? && agent.value != "" then agent.value else DefaultUserAgent
      ensures timeout == timeoutSeconds * 1000
      ensures !page && history == []
    {
      headless := headlessSetting;
      userAgent := if agent.Some? && agent.value != "" then agent.value else DefaultUserAgent;
      timeout := timeoutSeconds * 1000;
      screenshotsDir := directory;
      page := false;
      history := [];
    }

    method Initialize()
      modifies this`page
      ensures page
    {
      page := true;
    }

    /**
     * `navigate`: opens a page if there is none, records the visit and
     * succeeds only on a response whose status is ok.
     */
    method Navigate(url: string, now: int, outcome: Navigation) returns (success: bool)
      modifies this`page, this`history
      ensures page
      ensures history == old(history) + [HistoryEntry("navigate", url, now)]
      ensures success <==> outcome == Responded(true)
    {
      if !page {
        Initialize();
      }
      history := history + [HistoryEntry("navigate", url, now)];
      match outcome
      case NoResponse => success := false;
      case Responded(ok) => success := ok;
      case GotoRaised => success := false;
    }

    /** `take_screenshot`'s path: "" without a page or when saving fails. */
    method TakeScreenshot(filename: string, saved: bool) returns (path: string)
      ensures !page || !saved ==> path == ""
      ensures page && saved ==> path == PathJoin(screenshotsDir, CleanFilename(filename) + ".png")
    {
      if !page {
        return "";
      }
      var clean := CleanFilename(filename);
      path := if saved then PathJoin(screenshotsDir, clean + ".png") else "";
    }

    /**
     * `search`: navigates to the engine's search page (Google for an unknown
     * engine) and reads its results; nothing when the navigation fails or
     * the extraction raises.
     */
    method Search(query: string, engine: string, maxResults: int, now: int, outcome: Navigation, select: Selector)
      returns (results: seq<Record>)
      modifies this`page, this`history
      ensures history == old(history) + [HistoryEntry("navigate", SearchUrl(EffectiveEngine(engine), query), now)]
      ensures outcome != Responded(true) ==> results == []
      ensures outcome == Responded(true) ==> results == PageResults(EffectiveEngine(engine), select, maxResults)
    {
      var name := if engine == "google" || engine == "bing" || engine == "duckduckgo" then engine else "google";
      var url := SearchUrl(name, query);
      var success := Navigate(url, now, outcome);
      if !success {
        return [];
      }
      var candidates: Option<seq<Element>>;
      if name == "google" {
        var first := select("div.g");
        if first.Some? && first.value == [] {
          candidates := select("div.tF2Cxc");
        } else {
          candidates := first;
        }
      } else if name == "bing" {
        candidates := select("li.b_algo");
      } else {
        candidates := select("article.result");
      }
      if candidates.None? {
        return [];
      }
      results := ExtractResults(candidates.value, maxResults, name);
    }

    /**
     * `visit_page`: the error record when the navigation fails, otherwise the
     * page record built from what was read off the page. The clock is read
     * twice: `navigatedAt` for the history entry and `readAt` for the record.
     */
    method VisitPage(url: string, navigatedAt: int, readAt: int, outcome: Navigation, title: string, content: string, metadata: Json)
      returns (record: Json)
      modifies this`page, this`history
      ensures history == old(history) + [HistoryEntry("navigate", url, navigatedAt)]
      ensures outcome != Responded(true) ==> record == JObj([("error", JStr("Failed to navigate to " + url))])
      ensures outcome == Responded(true) ==> record == JObj([("url", JStr(url)), ("title", JStr(title)),
        ("content", JStr(content)), ("metadata", metadata), ("timestamp", JInt(readAt))])
    {
      var success := Navigate(url, navigatedAt, outcome);
      if !success {
        return JObj([("error", JStr("Failed to navigate to " + url))]);
      }
      record := JObj([("url", JStr(url)), ("title", JStr(title)), ("content", JStr(content)),
                      ("metadata", metadata), ("timestamp", JInt(readAt))]);
    }
  }
}
