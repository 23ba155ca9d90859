# browser_research in Dafny

A verified model of the core of `browser_research`, an asynchronous research assistant. A research run goes like this:

1. A query is analysed by an LLM into sub-questions and search terms.
2. The analysis becomes a research plan of web-search, knowledge-source and follow-up steps.
3. The plan is executed step by step with a browser session and knowledge sources (arXiv, Wikipedia, a web-search API) behind a caching source manager and a local context registry.
4. The gathered results, summarised when they are too long for the prompt, are turned into a Markdown report with numbered references.

The web interface keeps track of each research task and of stored reports.

Each core Python file becomes one Dafny module:

| module | file | models |
|---|---|---|
| `Planner` (planner.dfy) | orchestration/research_planner.py | analysis fallback, plan expansion |
| `Executor` (executor.dfy) | orchestration/task_executor.py | the step loop, web-search page visits, step outcomes |
| `Report` (report.dfy) | orchestration/report_generator.py | heading rule, summarisation pass, citations |
| `SourceManager` (source_manager.dfy) | knowledge/source_manager.py | registration, gated and cached queries, pruning, closing |
| `Mcp` (mcp.dfy) | knowledge/mcp_client.py | local context registry and routing |
| `Navigation` (navigation.dfy) | browser/navigation.py | robots cache, rate limiter, navigation rules, URL helpers |
| `Config` (config.dfy) | config.py | defaults, `deep_merge`, environment overrides |
| `Arxiv` (arxiv.dfy) | knowledge/sources/arxiv.py | request parameters, entry parsing |
| `Wikipedia` (wikipedia.dfy) | knowledge/sources/wikipedia.py | search hits, article records, language switch |
| `WebSearch` (web_search.dfy) | knowledge/sources/web_search.py | endpoint, site restriction, dispatch, simulated results |
| `Llm` (llm.dfy) | models/llm_client.py | default resolution, fallbacks, question extraction |
| `Content` (content.dfy) | browser/content_extractor.py | text cleaning, summary early returns, tables, links |
| `Browser` (browser.dfy) | browser/browser_session.py | history, engine fallback, result loops, visit record, screenshot name |
| `WebUi` (web.dfy) | ui/web.py | task records, result store, history, filenames |

Shared value types and helpers live in four more modules:

- `Values` (json.dfy): `Json` values, with objects as insertion-ordered field lists, and Python's `dict.get`, `in`, `len` and iteration over them.
- `Text` (text.dfy): ASCII string helpers, including Python's `strip`, `split`, `join` and slicing.
- `Urls` (url.dfy): `urlsplit`/`urlunsplit` on a component record (standing in for `urlparse`/`urlunparse`), and `quote`.
- `Wrappers` (wrappers.dfy): `Option` and the traversals that stop at the first error.

How the model is built:

- **Outside code is a parameter.** Everything the program asks of the outside world is passed in as data or as a function parameter (an oracle). This covers HTTP replies, Playwright pages, LLM replies, `json.loads`, XML parsing, `urljoin`, file writes and robots rules.
- **Exceptions are values.** A Python exception that the code lets propagate becomes `None` (or an `Attempt`/`Outcome` error variant); one it catches is modelled on its own branch.
- **Clocks are integers.** Clocks are integer timestamps passed in by the caller.
- **Imperative code stays imperative.** Where the source loops or updates objects, the model is a class with `modifies` frames or a method with a `while` loop. Each such method is proved equal to a specification function, and the promised properties are proved about that function as lemmas.

## Model

| member | source | states |
|---|---|---|
| Planner.FallbackFields | browser_research/orchestration/research_planner.py:74-81 | the fallback analysis has main_question = query, sub_questions = [query], search_terms = {web_search: [query]}, priority_order = ["web_search"], requires_followup = false, with distinct keys |
| Planner.AnalyzeQuery | browser_research/orchestration/research_planner.py:69-81 | a parsed reply is used as is; an unparseable one gives the fallback analysis |
| Planner.WebSteps | browser_research/orchestration/research_planner.py:107-114 | one pending google web_search step with cap 5 per term, in term order |
| Planner.ExpandWebEntry | browser_research/orchestration/research_planner.py:105-114 | the loop over web terms computes the web_search entry's steps (or the error) |
| Planner.CreatePlan | browser_research/orchestration/research_planner.py:97-142 | the plan built by the loops equals the plan specification; plan.query is the query and plan.analysis the analysis unchanged |
| Planner.ExpandOrder | browser_research/orchestration/research_planner.py:104-134 | the loop over priority_order computes the ordered step list, or the error raised part-way |
| Planner.FallbackPlan | browser_research/orchestration/research_planner.py:69-114 | an unparseable reply gives a plan of exactly one step: web_search, google, the query, max_results 5, pending |
| Planner.StepsRaise | browser_research/orchestration/research_planner.py:104-134 | a source entry that raises makes the whole plan creation raise |
| Planner.SourceStepsCount | browser_research/orchestration/research_planner.py:104-134 | one entry that does not raise gives the web term count for web_search, 1 for arxiv/wikipedia with a term, 0 otherwise; search_terms that is not a dict counts as no terms |
| Planner.OrderStepsCount | browser_research/orchestration/research_planner.py:104-134 | the number of source steps is the sum over priority_order: the web term count for web_search, 1 for arxiv/wikipedia with a term, 0 otherwise, for any shape of search_terms |
| Planner.PlanLength | browser_research/orchestration/research_planner.py:104-142 | every plan that is built has as many steps as that sum, plus one when requires_followup is truthy |
| Planner.OrderStepsWellFormed | browser_research/orchestration/research_planner.py:104-134 | every source step is pending with the per-source cap (web 5, arxiv 3, wikipedia 2), and none is a followup step |
| Planner.PlanShape | browser_research/orchestration/research_planner.py:104-142 | all steps are well formed; a followup step exists iff requires_followup is truthy, and it is then the last step |
| Planner.WebEntryOrder | browser_research/orchestration/research_planner.py:104-114 | with only web_search in the order, the steps are the web terms in listed order |
| Executor.ExecuteWebSearch | browser_research/orchestration/task_executor.py:138-170 | the page-visit loop computes the web_search outcome specification |
| Executor.ExecuteStep | browser_research/orchestration/task_executor.py:103-126 | the step dispatch computes the step outcome, and the record is never empty |
| Executor.Outcomes | browser_research/orchestration/task_executor.py:74-81 | one outcome per step, and outcome i is the outcome of step i |
| Executor.Advance | browser_research/orchestration/task_executor.py:75-81 | one loop iteration moves the run from the state after i steps to the state after i+1 |
| Executor.PauseAfter | browser_research/orchestration/task_executor.py:84-85 | the pause counter follows the count of pauses, none after the last step |
| Executor.TaskExecutor.constructor | browser_research/orchestration/task_executor.py:32 | the executor starts with no research results |
| Executor.TaskExecutor.ExecutePlan | browser_research/orchestration/task_executor.py:48-91 | status is "complete", completed_steps = total_steps = number of steps, results[i] is step i's outcome, pauses = n-1 (0 for no steps), and the run is stored under its id |
| Executor.PagesRaise | browser_research/orchestration/task_executor.py:153-162 | a search hit without "url" makes the whole step fail |
| Executor.PagesInRankOrder | browser_research/orchestration/task_executor.py:152-160 | the pages are the successful visits, each the hit plus its content, at strictly increasing hit positions |
| Executor.WebPagesBound | browser_research/orchestration/task_executor.py:153 | at most min(max_results, hits) pages are listed |
| Executor.AllVisited | browser_research/orchestration/task_executor.py:152-160 | when every visit succeeds, page i is the visit of hit i |
| Executor.ErrorResultFields | browser_research/orchestration/task_executor.py:115-126 | an error outcome carries type, status "error" and the message |
| Executor.FollowupResultFields | browser_research/orchestration/task_executor.py:219-229 | the followup outcome is complete with exactly the three fixed questions |
| Executor.StepOutcomeShape | browser_research/orchestration/task_executor.py:103-126 | every outcome is a non-empty record whose type is its step's kind |
| Report.EnsureHeading | browser_research/orchestration/report_generator.py:81-82 | the report starts with "# "; a reply already starting so is unchanged, otherwise the "Research Report" heading is prepended |
| Report.GenerateReport | browser_research/orchestration/report_generator.py:41-85 | the full results are sent when the dump is at most 6000 characters, the summary under the given length test otherwise, and the heading rule is applied; the source is the instance m = AsWritten |
| Report.SummarizeItemList | browser_research/orchestration/report_generator.py:111-123 | the item loop computes the item summarisation specification under the given length test |
| Report.SummarizeOne | browser_research/orchestration/report_generator.py:105-146 | the per-step body computes the step summarisation under the given length test |
| Report.SummarizeResults | browser_research/orchestration/report_generator.py:99-148 | the step loop computes the summary of the run under the given length test |
| Report.SummarizeItemEffect | browser_research/orchestration/report_generator.py:112-123 | under either length test, a short item passes through identical; a long one keeps every other key, gets the summary of the measured value as content and summarized = true |
| Report.PageSummarisation | browser_research/orchestration/report_generator.py:112-123 | as written, an item whose content is a visited-page record passes through unchanged; under the text-length test a long page text is replaced by its summary |
| Report.Measured | browser_research/orchestration/report_generator.py:112-114 | as written the content itself is measured and summarised; under the text-length test a record content stands for its "content" text |
| Report.SummaryShape | browser_research/orchestration/report_generator.py:99-148 | the summary keeps query and status and has exactly as many step results, in order |
| Report.PagesNeverLongAsWritten | browser_research/orchestration/report_generator.py:112 | as written, an item whose content is a visited-page record of at most 800 keys is never long |
| Report.LongPageMissed | browser_research/orchestration/report_generator.py:112 | a concrete page whose text is 801 characters is not summarised as written but is by the corrected test |
| Report.PageTests | browser_research/orchestration/report_generator.py:112 | for any page record with long text, the as-written test says short and the corrected test says long |
| Report.Section | browser_research/orchestration/report_generator.py:184-185 | the references section is "" iff there are no citation lines |
| Report.CiteItems | browser_research/orchestration/report_generator.py:166-170 | the item loop computes the item citation lines, and the counter advances by their number |
| Report.CiteStep | browser_research/orchestration/report_generator.py:164-178 | the per-step citation body computes the step's lines and advances the counter |
| Report.CollectCitations | browser_research/orchestration/report_generator.py:160-178 | the nested loops compute the citation lines of the run |
| Report.FormatCitations | browser_research/orchestration/report_generator.py:160-187 | the result is the references section of the citation lines (or the error) |
| Report.ItemLinesNumbered | browser_research/orchestration/report_generator.py:166-178 | item lines are numbered consecutively from the start index, at most one per item |
| Report.RunLinesNumbered | browser_research/orchestration/report_generator.py:160-178 | all citation lines are numbered 1..n consecutively in traversal order |
| Report.CitationsNumbered | browser_research/orchestration/report_generator.py:160-187 | numbered from 1; the section is "" iff there are no lines, else "## References\n\n" plus the lines |
| Report.CiteForCitable | browser_research/orchestration/report_generator.py:166-176 | unless a cite raises, it gives a line exactly for a record holding both "title" and "url", whatever its number |
| Report.CitableCountZero | browser_research/orchestration/report_generator.py:166-176 | the count of citable items is zero iff no item is citable |
| Report.ItemLinesCount | browser_research/orchestration/report_generator.py:166-178 | a step's items that do not raise give exactly one line per citable item |
| Report.CitableCountAppend | browser_research/orchestration/report_generator.py:164-178 | the citable count of two item lists together is the sum of their counts |
| Report.RunLinesCount | browser_research/orchestration/report_generator.py:164-178 | a traversal that does not raise has exactly one line per citable item of its web_search and knowledge_source steps |
| Report.CitationsEmpty | browser_research/orchestration/report_generator.py:160-187 | the section has one line per citable item, so it is "" iff no item of a web_search or knowledge_source step is citable |
| Report.OtherStepsUncited | browser_research/orchestration/report_generator.py:164-178 | steps other than web_search and knowledge_source contribute no lines |
| Report.WebCiteWhen | browser_research/orchestration/report_generator.py:167 | a web page is cited iff it has both url and title |
| Report.WebCiteText | browser_research/orchestration/report_generator.py:168 | a cited page's line is "n. title. Retrieved from url" |
| Report.KnowledgeCiteWhen | browser_research/orchestration/report_generator.py:175 | a knowledge item is cited iff it has both title and url, and is skipped otherwise whatever the source |
| Report.KnowledgeCiteRaises | browser_research/orchestration/report_generator.py:173-176 | a citable item under a step whose source is missing or not a string raises at `capitalize` |
| Report.KnowledgeCiteText | browser_research/orchestration/report_generator.py:176 | a cited item's line is "n. title. Source. Retrieved from url" with the source capitalised |
| SourceManager.Registered | browser_research/knowledge/source_manager.py:48-69 | the registered names are exactly the earlier ones plus the enabled names that import and initialise, with no duplicates and earlier ones kept first |
| SourceManager.KeepNewest | browser_research/knowledge/source_manager.py:119-130 | nothing is dropped within the limit; otherwise exactly max_size newest keys are kept, as a suffix |
| SourceManager.KnowledgeSourceManager.constructor | browser_research/knowledge/source_manager.py:25-38 | enabled sources, cache flag and max_size (default 1000) come from settings; no sources and an empty cache |
| SourceManager.KnowledgeSourceManager.Initialize | browser_research/knowledge/source_manager.py:40-69 | the loop registers exactly the specification's names, and one failure does not stop the others |
| SourceManager.KnowledgeSourceManager.PruneCache | browser_research/knowledge/source_manager.py:119-130 | the key order is cut to the newest max_size keys, and the cache to those keys |
| SourceManager.KnowledgeSourceManager.DropOldest | browser_research/knowledge/source_manager.py:126-130 | the deletion loop removes exactly the given number of oldest keys |
| SourceManager.KnowledgeSourceManager.Query | browser_research/knowledge/source_manager.py:71-117 | a disabled or unknown source gives [] with the cache untouched; a cache hit returns the stored list without a call; a raise gives [] and caches nothing; a disabled cache is never read or written |
| SourceManager.KnowledgeSourceManager.Store | browser_research/knowledge/source_manager.py:105-111 | a store appends the key and prunes to the newest max_size keys |
| SourceManager.KnowledgeSourceManager.Close | browser_research/knowledge/source_manager.py:132-145 | every registered source is attempted, in order, and the failures are exactly the sources whose close raises |
| SourceManager.PruneBound | browser_research/knowledge/source_manager.py:119-130 | after pruning the cache holds at most max_size keys |
| SourceManager.PruneRemovesOldest | browser_research/knowledge/source_manager.py:119-130 | pruning removes exactly len - max_size oldest keys, and survivors keep their relative order |
| SourceManager.StoredSurvives | browser_research/knowledge/source_manager.py:93-111 | a freshly stored key survives its own prune and gives the stored value |
| Mcp.Lookup | browser_research/knowledge/mcp_client.py:136 | a lookup finds an entry iff the name is registered, and then it is that name's entry |
| Mcp.Assign | browser_research/knowledge/mcp_client.py:214-218 | registering keeps every existing name in place and appends a new name at the end |
| Mcp.AssignLookup | browser_research/knowledge/mcp_client.py:214-218 | after registering, the name looks up to the new entry and every other name as before |
| Mcp.AssignWellFormed | browser_research/knowledge/mcp_client.py:214-218 | registering keeps names distinct and each entry under its own name |
| Mcp.AssignEntries | browser_research/knowledge/mcp_client.py:214-218 | re-registering a name replaces only its entry |
| Mcp.Entries | browser_research/knowledge/mcp_client.py:91-93 | the local listing is the registered entries, in registration order |
| Mcp.McpClient.constructor | browser_research/knowledge/mcp_client.py:26-40 | is_remote holds iff a base URL is given; no contexts |
| Mcp.McpClient.RegisterContext | browser_research/knowledge/mcp_client.py:202-219 | afterwards the schema lookup of the name is {name, schema, handler}, and other names are unchanged |
| Mcp.McpClient.ListContexts | browser_research/knowledge/mcp_client.py:60-93 | remote routing iff is_remote; locally the registered entries |
| Mcp.McpClient.GetContextSchema | browser_research/knowledge/mcp_client.py:95-136 | a registered name gives its entry; an unknown name gives {} locally, or goes to the server iff remote |
| Mcp.McpClient.QueryContext | browser_research/knowledge/mcp_client.py:138-156 | remote iff is_remote; locally the local query of the looked-up entry |
| Mcp.LocalQuery | browser_research/knowledge/mcp_client.py:184-200 | no entry or no handler gives the "No handler registered" error; a handler that raises gives {"error": msg}; otherwise its reply |
| Mcp.ListedOncePerName | browser_research/knowledge/mcp_client.py:91-93 | the listing has one entry per distinct name, each the entry its name looks up to |
| Mcp.UnknownContextQuery | browser_research/knowledge/mcp_client.py:191-200 | an unknown name's query is {"error": "No handler registered for context: <name>"} |
| Navigation.RobotsParser.constructor | browser_research/browser/navigation.py:23-32 | empty parser and timestamp maps and the given TTL |
| Navigation.RobotsParser.CanFetch | browser_research/browser/navigation.py:34-90 | a URL without host is allowed with no fetch; a parser younger than the TTL is reused; otherwise it is fetched and stored with the current time |
| Navigation.RobotsParser.ClearCache | browser_research/browser/navigation.py:92-95 | both maps are emptied |
| Navigation.CheckedIsFresh | browser_research/browser/navigation.py:56-83 | a parser stored at time t is fresh at any now with now - t < TTL |
| Navigation.UnreadRefuses | browser_research/browser/navigation.py:74-86 | a robots file that was not read refuses every URL |
| Navigation.Recent | browser_research/browser/navigation.py:141-144 | the kept timestamps are exactly those less than 60 old |
| Navigation.AcquireWaits | browser_research/browser/navigation.py:149-168 | None exactly when the limit is reached with an empty window (min([]) raises); with the limit reached the window wait is max(0, 60 - (now - oldest)), otherwise 0; the delay wait is delay - (now - last) when now - last < delay, otherwise 0 |
| Navigation.RateLimiter.constructor | browser_research/browser/navigation.py:103-118 | the rate and delay settings, with no timestamps |
| Navigation.RateLimiter.Acquire | browser_research/browser/navigation.py:120-171 | the domain's timestamps become the recent ones plus exactly one new one; other domains untouched; the waits are those computed |
| Navigation.RecentConcat | browser_research/browser/navigation.py:141-144 | the window filter distributes over concatenation |
| Navigation.RecordedStaysRecent | browser_research/browser/navigation.py:141-171 | a recorded request stays in the window until 60 have passed |
| Navigation.WikipediaRules | browser_research/browser/navigation.py:204-255 | on a wikipedia.org host a path is allowed iff it starts with /wiki/ and not with /wiki/Special:, /wiki/Talk: or /wiki/User: |
| Navigation.UnlistedHost | browser_research/browser/navigation.py:239-257 | a host matching no rule passes the site rules |
| Navigation.NavigationManager.constructor | browser_research/browser/navigation.py:179-209 | fresh robots parser (default TTL) and rate limiter with the given settings |
| Navigation.NavigationManager.CanNavigate | browser_research/browser/navigation.py:211-257 | true exactly when scheme and host are present, robots (when enabled) allows the URL from the fresh cache or a fetch, and then the site rules allow the path; the robots cache is unchanged unless consulted, and then changes as can_fetch states |
| Navigation.NavigationManager.PrepareNavigation | browser_research/browser/navigation.py:259-277 | refused exactly when can_navigate refuses; the limiter's timestamps change only when allowed, and then as acquire states; the robots cache changes as in can_navigate |
| Navigation.CollapseSlashes | browser_research/browser/navigation.py:299 | the result has no "//", is unchanged when there is none, and keeps the leading slash |
| Navigation.TrimSlashShape | browser_research/browser/navigation.py:302-303 | a trailing "/" is removed unless the path is "/" |
| Navigation.NormalizedCanonical | browser_research/browser/navigation.py:306-313 | the normalised components are canonical: no double slash, no trailing slash, empty fragment |
| Navigation.NormalizeShape | browser_research/browser/navigation.py:279-315 | the normalised URL has a scheme ("https" if missing), no "//" in the path and no trailing "/" unless the path is "/" |
| Navigation.NormalizeIdempotent | browser_research/browser/navigation.py:279-315 | normalising twice equals normalising once |
| Navigation.SameDomainEquivalence | browser_research/browser/navigation.py:321-339 | is_same_domain is reflexive, symmetric and transitive, and equals extract_domain equality |
| Navigation.ExtensionShape | browser_research/browser/navigation.py:356-387 | the extension is the lowercase text after the path's last "." or "" without one, and "" is allowed by default |
| Navigation.ExtensionAfterLastDot | browser_research/browser/navigation.py:385 | the extension is the lowercased text after the last dot, and "" without a dot |
| Urls.RoundTrip | browser_research/browser/navigation.py:291-313 | unparsing the parsed components gives back the URL |
| Config.LlmSection | browser_research/config.py:16-22 | the default configuration's llm section |
| Config.BrowserRateLimit | browser_research/config.py:23-33 | the browser section and its rate_limit subsection |
| Config.KnowledgeCache | browser_research/config.py:34-41 | the knowledge section and its cache subsection |
| Config.DefaultRequestsPerMinute | browser_research/config.py:30 | browser.rate_limit.requests_per_minute defaults to 10 |
| Config.DefaultDelay | browser_research/config.py:31 | browser.rate_limit.delay_between_requests defaults to 6 |
| Config.DefaultCacheEnabled | browser_research/config.py:37 | knowledge.cache.enabled defaults to true |
| Config.DefaultCacheSize | browser_research/config.py:39 | knowledge.cache.max_size defaults to 1000 |
| Config.DefaultMaxTokens | browser_research/config.py:21 | llm.max_tokens defaults to 4000 |
| Config.DefaultTemperature | browser_research/config.py:20 | llm.temperature defaults to 0.7 |
| Config.DeepMerge | browser_research/config.py:110-124 | the in-place recursive merge loop computes the merge specification |
| Config.MergeGet | browser_research/config.py:118-124 | each key's merged value: the update's, the recursive merge when both are maps, or the base's when absent from the update |
| Config.MergeKeysPresent | browser_research/config.py:118-124 | updating only existing keys keeps the key list |
| Config.MergeDistinct | browser_research/config.py:118-124 | merging keeps keys distinct |
| Config.UpdateKeysPresent | browser_research/config.py:118-124 | after the merge every key of the update is present |
| Config.MergeEmpty | browser_research/config.py:118-124 | merging into an empty map gives the update |
| Config.MergeKeysOrder | browser_research/config.py:118-124 | merging into an empty map keeps the update's key order |
| Config.MergeIdempotent | browser_research/config.py:110-124 | merging the same update twice equals merging it once |
| Config.MergeNested | browser_research/config.py:119-121 | when both values are maps the merge recurses, and nested base keys absent from the update survive |
| Config.EnvTrueIgnoresCase | browser_research/config.py:92 | the boolean conversion ignores case |
| Config.EnvTrueSpellings | browser_research/config.py:92 | a boolean override is true iff the value is "true", "yes", "1" or "y" in any case |
| Config.ParseInt | browser_research/config.py:95 | a parsed integer needs non-blank text |
| Config.ParseIntRoundTrip | browser_research/config.py:95 | int() parses every decimal rendering back to its value |
| Config.Converted | browser_research/config.py:91-96 | text is kept, booleans follow the spelling rule, and integers parse or raise |
| Config.SetPathGet | browser_research/config.py:98-104 | after assignment the path reads the new value |
| Config.SetPathDefined | browser_research/config.py:98-104 | the assignment succeeds iff the parent of the leaf exists and is a map |
| Config.SetPathOther | browser_research/config.py:98-104 | a path that leaves the assigned one at some level reads as before |
| Config.SetPathFirst | browser_research/config.py:98-104 | a different top-level section reads as before |
| Config.ApplyOverride | browser_research/config.py:86-105 | an unset variable changes nothing; a set one is converted and assigned at its path, or raises |
| Config.LoadConfig | browser_research/config.py:50-107 | loading computes the defaults merged with the file, then the environment overrides |
| Config.MergeFile | browser_research/config.py:63-75 | a file mapping is merged over the defaults; no file or a non-map leaves them |
| Config.OverridePaths | browser_research/config.py:78-84 | every environment override has a non-empty path |
| Config.ApplyAll | browser_research/config.py:86-105 | the override loop computes the overrides in order, stopping at the first raise |
| Config.ApplyFailed | browser_research/config.py:86-105 | once an override raises, loading raises |
| Config.BadPortRaises | browser_research/config.py:83-95 | a WEB_PORT that int() rejects makes loading raise |
| Config.PortOverride | browser_research/config.py:83-104 | a valid WEB_PORT sets web.port to its integer value |
| Config.LastOverrideSets | browser_research/config.py:86-105 | the last set override's path reads its converted value |
| Config.NothingSetGivesDefaults | browser_research/config.py:60-107 | with no file and no variables set the configuration is the defaults |
| Config.UnsetKeeps | browser_research/config.py:86-88 | unset variables change nothing |
| Arxiv.SortParam | browser_research/knowledge/sources/arxiv.py:137-142 | sortBy is relevance, lastUpdatedDate or submittedDate, and an unknown value maps to relevance |
| Arxiv.BuildRequest | browser_research/knowledge/sources/arxiv.py:128-150 | max_results = min(requested, cap); search_query is "cat:c AND q" iff the category is non-empty; sortOrder is descending |
| Arxiv.Squeeze | browser_research/knowledge/sources/arxiv.py:229 | whitespace runs become one space. The result is no longer than the input, is empty only for empty input, has no two adjacent whitespace characters, keeps only the plain space as whitespace, and starts and ends with whitespace exactly when the input does |
| Arxiv.SqueezeRuns | browser_research/knowledge/sources/arxiv.py:229 | the run-by-run substitution is no longer than the input and is empty only for empty input |
| Arxiv.SqueezeBlank | browser_research/knowledge/sources/arxiv.py:229 | every whitespace character left after the substitution is a plain space |
| Arxiv.SqueezeNoDouble | browser_research/knowledge/sources/arxiv.py:229 | after the substitution no two whitespace characters are adjacent |
| Arxiv.SqueezeFirst | browser_research/knowledge/sources/arxiv.py:229 | the first character is whitespace exactly when the input's first character is |
| Arxiv.SqueezeLast | browser_research/knowledge/sources/arxiv.py:229 | the last character is whitespace exactly when the input's last character is |
| Arxiv.SqueezeLastChar | browser_research/knowledge/sources/arxiv.py:229 | a trailing whitespace run ends the result in one space; otherwise the input's last character is kept |
| Arxiv.SqueezeIsScan | browser_research/knowledge/sources/arxiv.py:229 | the substitution equals a left-to-right scan that keeps every non-whitespace character and turns each whitespace run into exactly one space |
| Arxiv.ScanKeepsText | browser_research/knowledge/sources/arxiv.py:229 | the scan keeps the non-whitespace characters in order |
| Arxiv.SqueezeKeepsText | browser_research/knowledge/sources/arxiv.py:229 | the non-whitespace text is kept, in order |
| Arxiv.AbstractShape | browser_research/knowledge/sources/arxiv.py:225-229 | the abstract has no leading, trailing or consecutive whitespace |
| Arxiv.Authors | browser_research/knowledge/sources/arxiv.py:218-222 | at most one author per name element |
| Arxiv.AuthorsAllNamed | browser_research/knowledge/sources/arxiv.py:218-222 | when every name is non-empty every author is kept |
| Arxiv.AuthorsFromNames | browser_research/knowledge/sources/arxiv.py:218-222 | every author is the stripped text of a non-empty name element |
| Arxiv.Categories | browser_research/knowledge/sources/arxiv.py:261-271 | no duplicates, the primary first, exactly the non-empty primary and terms |
| Arxiv.IdFrom | browser_research/knowledge/sources/arxiv.py:249-251 | a non-empty id follows an "abs/" and has no "/" |
| Arxiv.IdFromUrl | browser_research/knowledge/sources/arxiv.py:245-251 | an abs URL gives back its id |
| Arxiv.DoiSearch | browser_research/knowledge/sources/arxiv.py:279 | a found DOI is non-empty and on one line |
| Arxiv.DoiOfResolverUrl | browser_research/knowledge/sources/arxiv.py:273-282 | a doi.org resolver URL gives back its DOI |
| Arxiv.FirstTitled | browser_research/knowledge/sources/arxiv.py:255-258 | the first link with the title, or none iff no link has it |
| Arxiv.EntryRecord | browser_research/knowledge/sources/arxiv.py:212-299 | the entry gives {} iff its title or summary element is present without text (its `.text.strip()` raises); a missing element gives "" and a full record |
| Arxiv.PaperFields | browser_research/knowledge/sources/arxiv.py:284-295 | a paper has source "arxiv" and url "https://arxiv.org/abs/" + id |
| Arxiv.Papers | browser_research/knowledge/sources/arxiv.py:189-195 | empty records are dropped, at most one paper per entry |
| Arxiv.PapersCount | browser_research/knowledge/sources/arxiv.py:189-195 | complete entries all give papers |
| Arxiv.CollectAuthors | browser_research/knowledge/sources/arxiv.py:218-222 | the author loop computes the authors |
| Arxiv.CollectCategories | browser_research/knowledge/sources/arxiv.py:261-271 | the category loop computes the categories |
| Arxiv.FindLink | browser_research/knowledge/sources/arxiv.py:255-258 | the link loop finds the first link with the title |
| Arxiv.ParseEntry | browser_research/knowledge/sources/arxiv.py:201-299 | the entry parse computes the entry record |
| Arxiv.ParseResponse | browser_research/knowledge/sources/arxiv.py:168-199 | the papers of the entries; a parse error gives [] |
| Arxiv.ArxivSource.constructor | browser_research/knowledge/sources/arxiv.py:26-41 | the cap defaults to 10; no session |
| Arxiv.ArxivSource.Initialize | browser_research/knowledge/sources/arxiv.py:43-81 | a session is opened and the "arxiv" context is registered with its schema and handler, other contexts untouched |
| Arxiv.ArxivSource.Close | browser_research/knowledge/sources/arxiv.py:301-305 | the session is closed |
| Arxiv.ArxivSource.Query | browser_research/knowledge/sources/arxiv.py:107-166 | no session gives [] and no request; otherwise the built request is sent and its entries parsed, a failure giving [] |
| Wikipedia.Hit | browser_research/knowledge/sources/wikipedia.py:148-152 | `None` iff the item is not a dict; otherwise the keys are exactly title, snippet and pageid, holding the item's values or "", "" and 0 |
| Wikipedia.SearchHits | browser_research/knowledge/sources/wikipedia.py:139-160 | [] when the request fails or the search list cannot be read or holds a non-dict; otherwise hit i is the formatted item i |
| Wikipedia.CategoryPrefixStripped | browser_research/knowledge/sources/wikipedia.py:200-205 | a category title loses everything up to and including its first ":" |
| Wikipedia.CategoryUnprefixed | browser_research/knowledge/sources/wikipedia.py:200-205 | a title without ":" is unchanged |
| Wikipedia.UntitledSkipped | browser_research/knowledge/sources/wikipedia.py:199-211 | category and link entries without a title contribute nothing |
| Wikipedia.ArticleRecord | browser_research/knowledge/sources/wikipedia.py:184-227 | non-empty exactly when there is a first page and its category and link loops succeed; then title, pageid, content (the extract), url (canonicalurl), categories, links and source "wikipedia" are those of the first page |
| Wikipedia.ArticleFields | browser_research/knowledge/sources/wikipedia.py:213-221 | each of the seven keys of the article record holds the value it was built from |
| Wikipedia.NoPagesNoArticle | browser_research/knowledge/sources/wikipedia.py:188-192 | a body that is not an object, a missing or non-object query, or a missing, empty or non-object pages gives no first page and {} |
| Wikipedia.Titles | browser_research/knowledge/sources/wikipedia.py:111-112 | the titles of the hits, in order |
| Wikipedia.Articles | browser_research/knowledge/sources/wikipedia.py:110-116 | at most one article per search result, none empty |
| Wikipedia.ArticleIndices | browser_research/knowledge/sources/wikipedia.py:110-116 | the kept positions are in range, strictly increasing, and include every title whose record is non-empty |
| Wikipedia.ArticlesInOrder | browser_research/knowledge/sources/wikipedia.py:110-116 | article k is the record of the title at the k-th kept position, so hit order is preserved |
| Wikipedia.ArticleFromHit | browser_research/knowledge/sources/wikipedia.py:110-116 | every article is the extract of some search result |
| Wikipedia.NoArticleLost | browser_research/knowledge/sources/wikipedia.py:110-116 | when every extract is non-empty there is one article per result |
| Wikipedia.FormatHits | browser_research/knowledge/sources/wikipedia.py:146-154 | the hit loop formats the search items |
| Wikipedia.CollectTitles | browser_research/knowledge/sources/wikipedia.py:198-211 | the category/link loop collects the titles |
| Wikipedia.GetArticleExtract | browser_research/knowledge/sources/wikipedia.py:162-227 | the extract request computes the article record |
| Wikipedia.WikipediaSource.constructor | browser_research/knowledge/sources/wikipedia.py:23-33 | the API URL defaults to English Wikipedia; no session |
| Wikipedia.WikipediaSource.Initialize | browser_research/knowledge/sources/wikipedia.py:35-68 | a session is opened and the "wikipedia" context is registered with its schema and handler, other contexts untouched |
| Wikipedia.WikipediaSource.Close | browser_research/knowledge/sources/wikipedia.py:229-233 | the session is closed |
| Wikipedia.WikipediaSource.Query | browser_research/knowledge/sources/wikipedia.py:91-116 | no session gives []; otherwise the articles of the search hits |
| Wikipedia.WikipediaSource.HandleMcpQuery | browser_research/knowledge/sources/wikipedia.py:70-89 | a language other than "en" sets the API URL to that language's, "en" leaves it; the answer wraps the query's articles |
| Wikipedia.SearchWikipedia | browser_research/knowledge/sources/wikipedia.py:118-160 | the search request computes the hits; errors give [] |
| WebSearch.ApiUrl | browser_research/knowledge/sources/web_search.py:45-50 | bing gets the Bing endpoint, every other engine the Google one |
| WebSearch.SiteQuery | browser_research/knowledge/sources/web_search.py:122-125 | an empty site leaves q; otherwise q, a space unless q ends with one, then "site:" + s |
| WebSearch.SiteAfterSpace | browser_research/knowledge/sources/web_search.py:122-125 | no extra space is added after a trailing space |
| WebSearch.HitList | browser_research/knowledge/sources/web_search.py:214-221 | at most max_results hits and at most one per item |
| WebSearch.GoogleResults | browser_research/knowledge/sources/web_search.py:209-230 | at most max_results Google records |
| WebSearch.BingResults | browser_research/knowledge/sources/web_search.py:256-277 | at most max_results Bing records |
| WebSearch.HitsMarked | browser_research/knowledge/sources/web_search.py:216-221 | every API record has four fields and its engine as source |
| WebSearch.GooglePageSize | browser_research/knowledge/sources/web_search.py:203 | num = min(10, max_results) |
| WebSearch.Fill | browser_research/knowledge/sources/web_search.py:296-327 | a simulated record has the template title and snippet around the query, the template URL with the quoted query, and source "simulated" |
| WebSearch.SimulateResults | browser_research/knowledge/sources/web_search.py:279-330 | min(5, max_results) records (Python slice rule for negatives); record i has template i's title and snippet around the query, its URL with the quoted query, and source "simulated" |
| WebSearch.UnsupportedEngine | browser_research/knowledge/sources/web_search.py:165-172 | with a key and an engine other than google or bing the query gives [] |
| WebSearch.DispatchBound | browser_research/knowledge/sources/web_search.py:165-176 | the query gives at most max_results records |
| WebSearch.WebSearchSource.constructor | browser_research/knowledge/sources/web_search.py:30-56 | engine defaults to google, the endpoint follows the engine, no session |
| WebSearch.WebSearchSource.Initialize | browser_research/knowledge/sources/web_search.py:58-104 | a session is opened with the User-Agent header, plus the Bing key header for keyed Bing, and the "web_search" context is registered with its schema and handler |
| WebSearch.WebSearchSource.Close | browser_research/knowledge/sources/web_search.py:332-336 | the session is closed |
| WebSearch.WebSearchSource.Query | browser_research/knowledge/sources/web_search.py:135-181 | no session gives [] and keeps the request time; otherwise the dispatch result, and last_request_time is updated |
| WebSearch.WebSearchSource.HandleMcpQuery | browser_research/knowledge/sources/web_search.py:106-133 | the query and site parameters default to "" and safe_search to true (taken by truthiness); the query is site-restricted before dispatch and wrapped as results |
| WebSearch.TextOr | browser_research/knowledge/sources/web_search.py:117-118 | `parameters.get(key, "")` of a text parameter: "" when absent, else its text |
| WebSearch.McpDefaults | browser_research/knowledge/sources/web_search.py:117-119 | with no parameters the query and site are "" (so the query is not restricted) and safe search is on |
| Urls.Quote | browser_research/knowledge/sources/web_search.py:299 | the quoted text is never shorter than the input and holds only safe characters, "%" and hex digits |
| Urls.QuoteSafeUnchanged | browser_research/knowledge/sources/web_search.py:299 | text of safe characters is unchanged |
| Urls.QuoteConcat | browser_research/knowledge/sources/web_search.py:299 | quoting distributes over concatenation |
| Urls.EscapesAt | browser_research/knowledge/sources/web_search.py:299 | byte k is escaped at position 3k as "%" and its two upper-case hex digits |
| Urls.EscapesAppend | browser_research/knowledge/sources/web_search.py:299 | escaping distributes over concatenation of the bytes |
| Urls.QuoteChar | browser_research/knowledge/sources/web_search.py:299 | a safe character is kept; any other becomes "%XX" for each of its UTF-8 bytes |
| Urls.QuoteSpace | browser_research/knowledge/sources/web_search.py:299 | a space becomes %20 |
| Urls.QuoteNonAscii | browser_research/knowledge/sources/web_search.py:299 | a non-ASCII character becomes its UTF-8 escapes |
| Llm.OrDefault | browser_research/models/llm_client.py:70-71 | a missing or zero value becomes the configured default |
| Llm.OutcomeText | browser_research/models/llm_client.py:112-124 | the response text, "Error: LLM request failed with status " and the code, or "Error: " and the exception message |
| Llm.ClassifyFallback | browser_research/models/llm_client.py:176-183 | category is the first category or "unknown", confidence 0.0 |
| Llm.FocusInstruction | browser_research/models/llm_client.py:202 | the focus instruction is empty iff no focus is given |
| Llm.QuestionLines | browser_research/models/llm_client.py:321-328 | every extracted line looks like a question, at most one per line |
| Llm.QuestionLinesMembership | browser_research/models/llm_client.py:321-328 | a line is extracted iff it is the strip of an input line that ends in "?" or starts with a question word |
| Llm.QuestionLinesStripped | browser_research/models/llm_client.py:324-328 | extracted lines are stripped |
| Llm.FallbackQuestions | browser_research/models/llm_client.py:317-330 | a prefix of the extracted lines, of length min(num_questions, extracted) for a non-negative count and Python's negative-slice length otherwise |
| Llm.Questions | browser_research/models/llm_client.py:308-330 | at most num_questions; a JSON list is cut by Python's slice, unparseable text gives the fallback lines as strings |
| Llm.NonListNoQuestions | browser_research/models/llm_client.py:311-315 | a JSON reply that is not a list gives [] |
| Llm.ExtractQuestions | browser_research/models/llm_client.py:321-328 | the line loop computes the extracted lines |
| Llm.LlmClient.constructor | browser_research/models/llm_client.py:23-35 | provider, model, API base, temperature 0.7 and max_tokens 4000 defaults; no session |
| Llm.LlmClient.Initialize | browser_research/models/llm_client.py:37-42 | a session is opened |
| Llm.LlmClient.Close | browser_research/models/llm_client.py:44-48 | the session is closed |
| Llm.LlmClient.RequestFor | browser_research/models/llm_client.py:96-110 | the request uses the default for a missing or zero max_tokens or temperature |
| Llm.LlmClient.Completion | browser_research/models/llm_client.py:67-77 | a provider other than ollama gives the unsupported-provider text; otherwise the reply's text |
| Llm.LlmClient.Complete | browser_research/models/llm_client.py:50-77 | opens a session if needed and returns the completion |
| Llm.LlmClient.Classify | browser_research/models/llm_client.py:126-183 | the parsed reply, or the fallback classification |
| Llm.LlmClient.Summarize | browser_research/models/llm_client.py:185-223 | the completion requested with max_tokens = 2 * max_length and temperature 0.3 |
| Llm.LlmClient.ExtractStructuredData | browser_research/models/llm_client.py:225-270 | the parsed reply, or the parse-failure error record |
| Llm.LlmClient.GenerateQuestions | browser_research/models/llm_client.py:272-330 | the questions of the completion |
| Llm.ZeroLengthSummaryBudget | browser_research/models/llm_client.py:222 | a zero summary length requests the default token budget |
| Llm.ZeroTemperatureIsDefault | browser_research/models/llm_client.py:71 | an explicit temperature 0 becomes the default |
| Content.CapRuns | browser_research/browser/content_extractor.py:166-169 | capping runs never lengthens the text |
| Content.CapOneNoRepeat | browser_research/browser/content_extractor.py:169 | after collapsing spaces no two spaces are adjacent |
| Content.CapUnchanged | browser_research/browser/content_extractor.py:166-169 | text without long runs is unchanged |
| Content.StripEach | browser_research/browser/content_extractor.py:172 | each line is stripped, in place |
| Content.StripEachAppend | browser_research/browser/content_extractor.py:172 | stripping distributes over concatenation of the line lists |
| Content.NonEmpty | browser_research/browser/content_extractor.py:173 | every kept line is a non-empty input line, and no more lines come out than go in |
| Content.NonEmptyMembers | browser_research/browser/content_extractor.py:173 | a string is kept exactly when it is a non-empty input line |
| Content.CleanLines | browser_research/browser/content_extractor.py:172-173 | every cleaned line is non-empty, and no more lines come out than go in |
| Content.CleanLinesMembers | browser_research/browser/content_extractor.py:172-173 | a string is a cleaned line exactly when it is the non-empty strip of some input line |
| Content.NonEmptyAppend | browser_research/browser/content_extractor.py:173 | dropping blank lines distributes over concatenation and keeps a single line iff it is non-empty, so order is preserved |
| Content.CleanLinesAppend | browser_research/browser/content_extractor.py:172-173 | the cleaned lines of two blocks are those of each, in order |
| Content.CleanLinesClean | browser_research/browser/content_extractor.py:172-173 | every cleaned line is non-empty, stripped, single-line and without double spaces |
| Content.CleanLinesFixed | browser_research/browser/content_extractor.py:172-173 | lines that are already clean are kept as they are |
| Content.CleanTextLinesStripped | browser_research/browser/content_extractor.py:155-175 | every output line is non-empty and equals its own strip |
| Content.CleanTextNoRepeats | browser_research/browser/content_extractor.py:155-175 | the output contains no "\n\n" and no two spaces in a row |
| Content.CleanTextIdempotent | browser_research/browser/content_extractor.py:155-175 | cleaning twice equals cleaning once |
| Content.SentenceCount | browser_research/browser/content_extractor.py:402 | text has at least one sentence |
| Content.SummarizeText | browser_research/browser/content_extractor.py:397-406 | empty text or max_sentences <= 0 gives ""; text with at most max_sentences sentences is returned unchanged |
| Content.SingleSentenceKept | browser_research/browser/content_extractor.py:402-406 | a single sentence is returned unchanged |
| Content.TableRows | browser_research/browser/content_extractor.py:365-375 | no row is empty |
| Content.Tables | browser_research/browser/content_extractor.py:361-380 | no table and no row is empty |
| Content.TablesKept | browser_research/browser/content_extractor.py:374-378 | tables with a non-empty row are all kept |
| Content.LinkUrl | browser_research/browser/content_extractor.py:327-329 | an absolute href, or any href without a base, is kept |
| Content.Links | browser_research/browser/content_extractor.py:319-341 | at most one link per anchor |
| Content.LinksFromAnchors | browser_research/browser/content_extractor.py:319-341 | a record is listed iff some anchor with an unskipped href gives it |
| Content.LinksNotSkipped | browser_research/browser/content_extractor.py:323 | no listed URL is empty or starts with "javascript:", "mailto:" or "#" |
| Browser.EffectiveEngine | browser_research/browser/browser_session.py:172-176 | the engine is google, bing or duckduckgo, and a supported engine is kept |
| Browser.UnknownEngineSearchesGoogle | browser_research/browser/browser_session.py:165-176 | an unsupported engine searches Google |
| Browser.ResultRecord | browser_research/browser/browser_session.py:232-255 | a record has title ("No title" if missing), url and the engine as source |
| Browser.Collect | browser_research/browser/browser_session.py:228-260 | at most one record per element |
| Browser.CollectBound | browser_research/browser/browser_session.py:258-259 | at most max_results records |
| Browser.CollectFromUsable | browser_research/browser/browser_session.py:228-260 | every record comes from a readable element with an http URL |
| Browser.CollectKeepsUsable | browser_research/browser/browser_session.py:228-260 | when every element is usable, each becomes a record |
| Browser.ExtractResults | browser_research/browser/browser_session.py:228-260 | the element loop with its break computes the records |
| Browser.CollectStopped | browser_research/browser/browser_session.py:258-259 | once max_results records exist the loop stops |
| Browser.PageResultsShape | browser_research/browser/browser_session.py:207-354 | every extractor gives at most max_results records with http URLs and the engine as source |
| Browser.CleanFilename | browser_research/browser/browser_session.py:524 | same length; every character is alphanumeric or "._- ", others replaced by "_" |
| Browser.CleanFilenameNoSlash | browser_research/browser/browser_session.py:524 | the cleaned name has no "/" |
| Browser.BrowserSession.constructor | browser_research/browser/browser_session.py:33-59 | settings with the default user agent and timeout in milliseconds; no page, empty history |
| Browser.BrowserSession.Initialize | browser_research/browser/browser_session.py:61-94 | a page is opened |
| Browser.BrowserSession.Navigate | browser_research/browser/browser_session.py:96-138 | exactly one history entry is appended, and the result is true iff the page responded ok |
| Browser.BrowserSession.TakeScreenshot | browser_research/browser/browser_session.py:508-535 | the path under the screenshot directory of the cleaned name, or "" on failure |
| Browser.BrowserSession.Search | browser_research/browser/browser_session.py:151-205 | navigation to the fallback engine's URL is recorded; a failed navigation gives []; otherwise the extracted results |
| Browser.BrowserSession.VisitPage | browser_research/browser/browser_session.py:356-388 | a failed navigation gives {"error": "Failed to navigate to <url>"}; otherwise the page record, whose timestamp is the second clock reading |
| WebUi.Sanitise | browser_research/ui/web.py:689 | same length; other characters are replaced one for one by "_" |
| WebUi.SafeQuery | browser_research/ui/web.py:689-690 | at most 50 characters, every one alphanumeric or in " -_" |
| WebUi.ReportFilename | browser_research/ui/web.py:814-816 | "research_", then the sanitised query, "_", the decimal timestamp and ".md"; the name has no "/" |
| WebUi.SafeQueryNoSlash | browser_research/ui/web.py:814-815 | the sanitised query has no "/" |
| WebUi.TraceForward | browser_research/ui/web.py:784-851 | statuses move forward only, and end in complete iff every stage succeeds, otherwise in error |
| WebUi.Insert | browser_research/ui/web.py:706 | insertion adds exactly the element |
| WebUi.InsertSorted | browser_research/ui/web.py:706 | insertion keeps newest-first order |
| WebUi.SortNewest | browser_research/ui/web.py:705-706 | sorting is a permutation |
| WebUi.SortNewestSorted | browser_research/ui/web.py:705-706 | the sorted history is newest first |
| WebUi.HistoryEntries | browser_research/ui/web.py:709-716 | each entry keeps only query_id, query and created_at |
| WebUi.Pick | browser_research/ui/web.py:705 | the stored results in insertion order |
| WebUi.WebInterface.constructor | browser_research/ui/web.py:651 | no tasks and no results |
| WebUi.WebInterface.StartResearch | browser_research/ui/web.py:645-663 | a new task record is pending with progress 0 and total_steps 0 |
| WebUi.WebInterface.Lookup | browser_research/ui/web.py:665-678 | a stored result wins over the active task; an unknown id gives 404 |
| WebUi.WebInterface.Download | browser_research/ui/web.py:680-691 | a stored result's report file and name; otherwise 404 |
| WebUi.WebInterface.Stored | browser_research/ui/web.py:705 | the stored results, in insertion order |
| WebUi.WebInterface.StoreResult | browser_research/ui/web.py:821-827 | the result is stored under its id, and a new id is appended to the order |
| WebUi.WebInterface.ConductResearch | browser_research/ui/web.py:775-851 | the status trace; after a plan, total_steps is its length; on completion progress = total_steps, the result is stored and a new id is appended to the insertion order; on error nothing is stored and error is the message of the failing call |
| WebUi.FinalTask | browser_research/ui/web.py:784-834 | the task record ends in the trace's last status, keeps query, limit and start time, has total_steps = plan length once planned, progress = total_steps on completion, and error = str(e) of the first failing call on error |
| WebUi.WebInterface.Expire | browser_research/ui/web.py:836-838 | only that task is removed |
| WebUi.ConductThenExpire | browser_research/ui/web.py:775-851 | after a run and its clean-up the task is gone; a lookup then returns the stored result after success, and the earlier result or 404 after an error |
| WebUi.HistorySortedPermutation | browser_research/ui/web.py:705-717 | the history lists each stored result once, newest first |

## Left out

- **I/O.** The program's I/O is outside the model. This covers HTTP requests, Playwright pages and DOM queries, JavaScript snippets, screenshots, file writes, YAML loading and logging. Their results are parameters.
- **Foreign parsers.** `json.loads`, ElementTree parsing and `urljoin` are oracles. arXiv entry fields are pre-extracted, and so are the cells of `extract_tables`.
- **BeautifulSoup-based extractors.** `extract_main_content`, `_extract_by_density`, `extract_metadata`, `extract_structured_data` and `clean_html` in content_extractor.py work on a BeautifulSoup tree and float density ratios. They are left out.
- **Summary scoring.** `summarize_text`'s floating-point sentence scoring is an oracle result (`scored`). Only its early returns are modelled.
- **robots.txt rules.** They are an opaque verdict. The model does not claim fail-open for the error branch.
- **Concurrency and timing.** asyncio locks, sleeps and interleaving are out, and `acquire` is sequential. Float seconds, web_search's pacing arithmetic and wall-clock time are out; integer timestamps are passed in.
- **Query ids.** The executor's `hash(query)` id is a parameter, and so is web.py's uuid4.
- **Per-step progress callback.** web.py sets `on_step_complete`, but the executor never calls it, so no per-step progress is modelled.
- **UI layers.** ui/cli.py, main.py, the FastAPI routes, the WebSocket loop and the HTML templates are out.
- **Prompt and reply text.** Prompt wording lives in models/prompts.py and is kept as opaque prompt values. LLM reply content is arbitrary.
- **Source loading.** Dynamic `importlib` loading is a static table of importable source names.
- **Config aliasing.** Config is a value. The aliasing caused by the shallow copy of nested defaults is out.
- **String built-ins.** `isalnum`, `lower` and `capitalize` are ASCII approximations. `isspace` is Python's full whitespace set.
- **Playwright import.** The `ImportError` branch for a missing Playwright is out.
- **Search result scraping.** The Google snippet selector loop is folded into a given snippet. Screenshots taken inside `search` and `visit_page` are out.
- **Remote MCP.** Routing is modelled, but remote calls are a `Server` marker. Non-string MCP parameters are out.
- WebSearch.WebSearchSource.HandleMcpQuery: requires the query and site parameters to be text when present, because a non-text value there reaches `str` methods and `requests` beyond the model.
- Llm.LlmClient.RequestFor: the request record carries the endpoint, model, prompt, max_tokens and temperature, but not the remaining JSON payload keys or the HTTP headers.
- WebUi.SortNewest: states ordering and permutation but not the stability of Python's sort among equal created_at values.
- WebUi.WebInterface.ConductResearch: `created_at` and the filename timestamp are two parameters. The model does not relate them, just as the source takes two separate `time.time()` readings.
- Navigation.NavigationManager.CanNavigate: parsing failures in `urlparse` are not modelled. It raises `ValueError` for a malformed IPv6 host and, through `_checknetloc`, for a non-ASCII netloc whose NFKC form contains "/", "?", "#", "@" or ":".
- Urls.Parse: models `urlsplit`, not `urlparse`. It does not split `;params` off the path, so `normalize_url("https://h/a/;x")` keeps "https://h/a/;x" where the source gives "https://h/a;x".
- Urls.Parse: does not strip leading C0 control characters and spaces, does not remove tab, CR and LF, and has no `ValueError` paths.

## Findings

| source | as written | input that shows it | evidently intended | confidence | as-written member | corrected member |
|---|---|---|---|---|---|---|
| browser_research/orchestration/report_generator.py:112 | `len(page["content"]) > 800` is applied to a web_search page whose `content` is the dict returned by `visit_page` (task_executor.py:157), so `len` counts its five keys and no web page is ever summarised | a page whose content record holds an 801-character text | compare the length of the page's text, so long pages are summarised | not executed | Report.LongPageMissed | Report.SummarizeItemEffect |

The length test is a parameter of the summarisation (`Report.Measure`). The source is the instance `AsWritten`, which measures the content itself (`Report.Long`). `Report.PagesNeverLongAsWritten`, `Report.PageTests` and `Report.PageSummarisation` show that it never fires for a visited page. The corrected instance `ByText` reads the page record's own `content` text, and `Report.SummarizeItemEffect` proves the intended replacement for it. Every summarisation member (`SummarizeItem` up to `GenerateReport`) is stated for both instances.

## Notes

Places where the documentation and the code disagree, and the model follows the code:

- `_get_article_extract` keeps an article whose extract is empty; the list built by `query` only drops empty records.
- arXiv's DOI pattern has an unescaped `.` in `doi.org`, so any character matches there.
- The download filename uses `created_at`, which is read after the saved file's timestamp, so the two names can differ.
