/**
 * The report generator (orchestration/report_generator.py): decides whether
 * the research results are summarised before they go into the prompt,
 * guarantees the report's top-level heading, pre-summarises long items, and
 * numbers the citable items into a references section.
 *
 * The LLM is an oracle: `summarize(text)` is the summary `summarize` returns,
 * `reply(findings)` the report text for the findings put into the prompt.
 * Lookups that raise in Python (`KeyError`, `TypeError`, `AttributeError`)
 * make the functions return `None`.
 */
module Report {
  import opened Wrappers
  import opened Values
  import opened Executor
  import Text

  /** What `_summarize_research_results` returns: only query, status and results. */
  datatype Summary = Summary(query: string, status: string, results: seq<Record>)

  /** The findings serialised into the prompt. */
  datatype Findings = Full(run: Run) | Summarised(summary: Summary)

  type SummaryOracle = Json -> string
  type ReplyOracle = Findings -> string

  const PromptLimit := 6000
  const LongItem := 800

  // ---------------------------------------------------------------------------
  // Heading rule and threshold

  /** The heading rule at the end of `generate_report`. */
  function EnsureHeading(query: string, reply: string): (r: string)
    ensures Text.StartsWith(r, "# ")
    ensures Text.StartsWith(reply, "# ") ==> r == reply
    ensures !Text.StartsWith(reply, "# ") ==> r == "# Research Report: " + query + "\n\n" + reply
  {
    if Text.StartsWith(reply, "# ") then reply
    else
      var r := "# Research Report: " + query + "\n\n" + reply;
      assert r[..2] == "# ";
      r
  }

  /**
   * `generate_report`: `dumpedLength` is the length of the indented JSON dump
   * of the results. Only above 6000 characters are the results summarised,
   * with the length test `m`; the source as written is `m == AsWritten`.
   */
  function GenerateReport(run: Run, dumpedLength: nat, summarize: SummaryOracle, reply: ReplyOracle, m: Measure): (r: Option<string>)
    ensures dumpedLength <= PromptLimit ==> r == Some(EnsureHeading(run.query, reply(Full(run))))
    ensures dumpedLength > PromptLimit ==>
      r == match SummaryOf(run, summarize, m)
           case Some(s) => Some(EnsureHeading(run.query, reply(Summarised(s))))
           case None => None
    ensures r.Some? ==> Text.StartsWith(r.value, "# ")
  {
    if dumpedLength <= PromptLimit then Some(EnsureHeading(run.query, reply(Full(run))))
    else
      match SummaryOf(run, summarize, m)
      case Some(s) => Some(EnsureHeading(run.query, reply(Summarised(s))))
      case None => None
  }

  // ---------------------------------------------------------------------------
  // Pre-summarisation

  /**
   * Which length the summarisation test measures: `AsWritten` is the test at
   * report_generator.py:112 and :131, `len(item["content"]) > 800` on the
   * content itself; `ByText` measures the text a visited-page record holds,
   * which is what the summarisation is meant to shorten.
   */
  datatype Measure = AsWritten | ByText

  /** The value that is measured and summarised: under `ByText`, the page text of a visited-page record. */
  function Measured(m: Measure, c: Json): (r: Json)
    ensures m == AsWritten || !c.JObj? ==> r == c
    ensures m == ByText && c.JObj? ==> r == GetOr(c.fields, "content", JStr(""))
  {
    if m == ByText && c.JObj? then GetOr(c.fields, "content", JStr("")) else c
  }

  /** `"content" in item and item["content"] and len(...) > 800`, with `len` applied to the measured value. */
  function Long(m: Measure, item: Json): Option<bool> {
    match PyIn("content", item)
    case None => None
    case Some(false) => Some(false)
    case Some(true) =>
      if !item.JObj? then None
      else
        var t := Measured(m, Get(item.fields, "content").value);
        if !Truthy(t) then Some(false)
        else
          match PyLen(t)
          case None => None
          case Some(n) => Some(n > LongItem)
  }

  /** One item: a long one is copied with its content replaced by a summary and `summarized` set. */
  function SummarizeItem(item: Json, summarize: SummaryOracle, m: Measure): Option<Json> {
    match Long(m, item)
    case None => None
    case Some(false) => Some(item)
    case Some(true) =>
      var text := Measured(m, Get(item.fields, "content").value);
      Some(JObj(Put(Put(item.fields, "content", JStr(summarize(text))), "summarized", JBool(true))))
  }

  function ItemSummarizer(summarize: SummaryOracle, m: Measure): Json -> Option<Json> {
    item => SummarizeItem(item, summarize, m)
  }

  /** The items, each summarised where needed; `None` when one of them raises. */
  function SummarizeItems(items: seq<Json>, summarize: SummaryOracle, m: Measure): Option<seq<Json>> {
    Traverse(items, ItemSummarizer(summarize, m))
  }

  /** One step result: web-search and knowledge-source steps get their items summarised, others are kept. */
  function SummarizeStep(step: Record, summarize: SummaryOracle, m: Measure): Option<Record> {
    match Get(step, "type")
    case None => None
    case Some(t) =>
      if t == JStr("web_search") || t == JStr("knowledge_source") then
        match Iterate(GetOr(step, "results", JList([])))
        case None => None
        case Some(items) =>
          match SummarizeItems(items, summarize, m)
          case None => None
          case Some(items') => Some(Put(step, "results", JList(items')))
      else Some(step)
  }

  function StepSummarizer(summarize: SummaryOracle, m: Measure): Record -> Option<Record> {
    step => SummarizeStep(step, summarize, m)
  }

  /** The step results, each summarised; `None` when one of them raises. */
  function SummarizeSteps(steps: seq<Record>, summarize: SummaryOracle, m: Measure): Option<seq<Record>> {
    Traverse(steps, StepSummarizer(summarize, m))
  }

  /** `_summarize_research_results`. */
  function SummaryOf(run: Run, summarize: SummaryOracle, m: Measure): Option<Summary> {
    match SummarizeSteps(run.results, summarize, m)
    case None => None
    case Some(steps) => Some(Summary(run.query, run.status, steps))
  }

  /** The item loop of `_summarize_research_results`. */
  method SummarizeItemList(items: seq<Json>, summarize: SummaryOracle, m: Measure) returns (r: Option<seq<Json>>)
    ensures r == SummarizeItems(items, summarize, m)
  {
    var out: seq<Json> := [];
    var i := 0;
    while i < |items|
      invariant 0 <= i <= |items|
      invariant SummarizeItems(items[..i], summarize, m) == Some(out)
    {
      var x := SummarizeItem(items[i], summarize, m);
      assert ItemSummarizer(summarize, m)(items[i]) == x;
      if x.None? {
        return None;
      }
      TraverseStep(items, i, ItemSummarizer(summarize, m), out);
      out := out + [x.value];
      i := i + 1;
    }
    assert items[..i] == items;
    r := Some(out);
  }

  /** The body of the step loop of `_summarize_research_results`. */
  method SummarizeOne(step: Record, summarize: SummaryOracle, m: Measure) returns (x: Option<Record>)
    ensures x == SummarizeStep(step, summarize, m)
  {
    var t := Get(step, "type");
    if t.None? {
      x := None;
    } else if t.value == JStr("web_search") || t.value == JStr("knowledge_source") {
      var items := Iterate(GetOr(step, "results", JList([])));
      if items.None? {
        x := None;
      } else {
        var items' := SummarizeItemList(items.value, summarize, m);
        x := if items'.None? then None else Some(Put(step, "results", JList(items'.value)));
      }
    } else {
      x := Some(step);
    }
  }

  /** `_summarize_research_results`: every step result is copied, and its items summarised where needed. */
  method SummarizeResults(run: Run, summarize: SummaryOracle, m: Measure) returns (r: Option<Summary>)
    ensures r == SummaryOf(run, summarize, m)
  {
    var steps := run.results;
    var out: seq<Record> := [];
    var i := 0;
    while i < |steps|
      invariant 0 <= i <= |steps|
      invariant SummarizeSteps(steps[..i], summarize, m) == Some(out)
    {
      var x := SummarizeOne(steps[i], summarize, m);
      assert StepSummarizer(summarize, m)(steps[i]) == x;
      if x.None? {
        return None;
      }
      TraverseStep(steps, i, StepSummarizer(summarize, m), out);
      out := out + [x.value];
      i := i + 1;
    }
    assert steps[..i] == steps;
    r := Some(Summary(run.query, run.status, out));
  }

  /**
   * A long item becomes a copy of itself whose `content` is the summary of
   * the measured value and whose `summarized` is true, every other key
   * unchanged; any other item passes through identical.
   */
  lemma SummarizeItemEffect(item: Json, summarize: SummaryOracle, m: Measure, k: string)
    requires SummarizeItem(item, summarize, m).Some?
    ensures var out := SummarizeItem(item, summarize, m).value;
      && (Long(m, item) == Some(false) ==> out == item)
      && (Long(m, item) == Some(true) ==>
            && item.JObj? && out.JObj?
            && Get(out.fields, "content") == Some(JStr(summarize(Measured(m, Get(item.fields, "content").value))))
            && Get(out.fields, "summarized") == Some(JBool(true))
            && (k != "content" && k != "summarized" ==> Get(out.fields, k) == Get(item.fields, k)))
  {
    if Long(m, item) == Some(true) {
      var v := JStr(summarize(Measured(m, Get(item.fields, "content").value)));
      var d := Put(item.fields, "content", v);
      PutGet(item.fields, "content", v, k);
      PutGet(item.fields, "content", v, "content");
      PutGet(d, "summarized", JBool(true), k);
      PutGet(d, "summarized", JBool(true), "content");
      PutGet(d, "summarized", JBool(true), "summarized");
    }
  }

  /**
   * As written, an item whose content is a visited-page record of at most
   * 800 keys leaves the summarisation identical, while the text-length test
   * replaces a long page text by its summary.
   */
  lemma PageSummarisation(hit: Record, page: Record, summarize: SummaryOracle)
    requires |page| <= LongItem
    ensures var item := JObj(Put(hit, "content", JObj(page)));
      && SummarizeItem(item, summarize, AsWritten) == Some(item)
      && (Long(ByText, item) == Some(true) ==>
            SummarizeItem(item, summarize, ByText) ==
            Some(JObj(Put(Put(item.fields, "content", JStr(summarize(GetOr(page, "content", JStr(""))))), "summarized", JBool(true)))))
  {
    var item := JObj(Put(hit, "content", JObj(page)));
    PagesNeverLongAsWritten(hit, page);
    PutGet(hit, "content", JObj(page), "content");
  }

  /**
   * The summarised record keeps the query and status, and one step result
   * per original step in order; steps of other types are kept identical, and
   * summarised steps keep every key but `results`.
   */
  lemma SummaryShape(run: Run, summarize: SummaryOracle, m: Measure, k: string)
    requires SummaryOf(run, summarize, m).Some?
    ensures var s := SummaryOf(run, summarize, m).value;
      && s.query == run.query && s.status == run.status
      && |s.results| == |run.results|
      && forall i :: 0 <= i < |run.results| ==>
           var t := Get(run.results[i], "type");
           && (t.Some? && t.value != JStr("web_search") && t.value != JStr("knowledge_source") ==> s.results[i] == run.results[i])
           && (k != "results" ==> Get(s.results[i], k) == Get(run.results[i], k))
  {
    var s := SummaryOf(run, summarize, m).value;
    assert forall i :: 0 <= i < |run.results| ==> StepSummarizer(summarize, m)(run.results[i]) == Some(s.results[i]);
    forall i | 0 <= i < |run.results|
      ensures k != "results" ==> Get(s.results[i], k) == Get(run.results[i], k)
    {
      var step := run.results[i];
      var items := Iterate(GetOr(step, "results", JList([])));
      if items.Some? && SummarizeItems(items.value, summarize, m).Some? {
        PutGet(step, "results", JList(SummarizeItems(items.value, summarize, m).value), k);
      }
    }
  }

  // ---------------------------------------------------------------------------
  // The summarisation test misses web pages

  /** A visited-page record: five keys, one of them the page text. */
  function PageRecord(url: string, title: string, text: string): Record {
    [("url", JStr(url)), ("title", JStr(title)), ("content", JStr(text)),
     ("metadata", JObj([])), ("timestamp", JInt(0))]
  }

  /**
   * A web-search page holds the visited-page record as its `content`, and the
   * length of a record is its number of keys, so as written no page is ever
   * summarised however long its text is.
   */
  lemma PagesNeverLongAsWritten(hit: Record, page: Record)
    requires |page| <= LongItem
    ensures Long(AsWritten, JObj(Put(hit, "content", JObj(page)))) == Some(false)
  {
    PutGet(hit, "content", JObj(page), "content");
  }

  /** A page with 801 characters of text: missed as written, summarised by the text-length test. */
  lemma LongPageMissed()
    ensures var page := JObj([("url", JStr("https://example.com")), ("content", JObj(PageRecord("https://example.com", "t", seq(801, _ => 'a'))))]);
      Long(AsWritten, page) == Some(false) && Long(ByText, page) == Some(true)
  {
    var text := seq(801, _ => 'a');
    var rec := PageRecord("https://example.com", "t", text);
    GetFirst(rec, 2);
    PageTests([("url", JStr("https://example.com")), ("content", JObj(rec))], rec, text);
  }

  /** The two tests on an item whose content is a short record holding a long text. */
  lemma PageTests(fields: Record, rec: Record, text: string)
    requires |fields| == 2 && fields[0].0 != "content" && fields[1] == ("content", JObj(rec))
    requires 0 < |rec| <= LongItem && Get(rec, "content") == Some(JStr(text)) && |text| > LongItem
    ensures Long(AsWritten, JObj(fields)) == Some(false) && Long(ByText, JObj(fields)) == Some(true)
  {
    GetFirst(fields, 1);
  }


  // ---------------------------------------------------------------------------
  // Citations

  datatype Cite = Raise | Skip | Line(text: string)

  /** A citation line numbered `n`. */
  function Numbered(n: int, rest: string): (r: string)
    ensures Text.StartsWith(r, Text.IntToString(n) + ". ")
  {
    var p := Text.IntToString(n) + ". ";
    assert (p + rest)[..|p|] == p;
    p + rest
  }

  /** A web-search page is cited when it has both "url" and "title". */
  function WebCite(n: int, page: Json): Cite {
    match PyIn("url", page)
    case None => Raise
    case Some(false) => Skip
    case Some(true) =>
      match PyIn("title", page)
      case None => Raise
      case Some(false) => Skip
      case Some(true) =>
        if !page.JObj? then Raise
        else Line(Numbered(n, PyStr(Get(page.fields, "title").value)
                           + ". Retrieved from " + PyStr(Get(page.fields, "url").value)))
  }

  /** A knowledge item is cited when it has both "title" and "url"; the step's source must be a string. */
  function KnowledgeCite(n: int, item: Json, source: Option<Json>): Cite {
    match PyIn("title", item)
    case None => Raise
    case Some(false) => Skip
    case Some(true) =>
      match PyIn("url", item)
      case None => Raise
      case Some(false) => Skip
      case Some(true) =>
        if !item.JObj? || !(source.Some? && source.value.JStr?) then Raise
        else Line(Numbered(n, PyStr(Get(item.fields, "title").value) + ". "
                           + Text.Capitalize(source.value.s) + ". Retrieved from " + PyStr(Get(item.fields, "url").value)))
  }

  /** How one step type turns an item, numbered `n`, into a citation. */
  type CiteFn = (int, Json) -> Cite

  function CiteFor(web: bool, source: Option<Json>): CiteFn {
    (n: int, item: Json) => if web then WebCite(n, item) else KnowledgeCite(n, item, source)
  }

  /** The citation lines of one step's items, numbered from `start`. */
  function ItemLines(cite: CiteFn, items: seq<Json>, start: int): Option<seq<string>> {
    if items == [] then Some([])
    else
      match ItemLines(cite, items[..|items| - 1], start)
      case None => None
      case Some(prefix) =>
        match cite(start + |prefix|, items[|items| - 1])
        case Raise => None
        case Skip => Some(prefix)
        case Line(l) => Some(prefix + [l])
  }

  /** The citation lines of one step result; steps of other types contribute none. */
  function StepLines(step: Record, start: int): Option<seq<string>> {
    match Get(step, "type")
    case None => None
    case Some(t) =>
      if t == JStr("web_search") || t == JStr("knowledge_source") then
        match Iterate(GetOr(step, "results", JList([])))
        case None => None
        case Some(items) => ItemLines(CiteFor(t == JStr("web_search"), Get(step, "source")), items, start)
      else Some([])
  }

  /** The citation lines of all step results, numbered consecutively from 1. */
  function RunLines(steps: seq<Record>): Option<seq<string>> {
    if steps == [] then Some([])
    else
      match RunLines(steps[..|steps| - 1])
      case None => None
      case Some(prefix) =>
        match StepLines(steps[|steps| - 1], 1 + |prefix|)
        case None => None
        case Some(more) => Some(prefix + more)
  }

  /** The references section built from the lines. */
  function Section(lines: seq<string>): (r: string)
    ensures r == "" <==> lines == []
  {
    if lines == [] then ""
    else
      var r := "## References\n\n" + Text.Join(lines, '\n');
      assert r[0] == '#';
      r
  }

  /** The item loop of `format_citations`: `index` is the running citation number. */
  method CiteItems(cite: CiteFn, items: seq<Json>, index: int) returns (lines: Option<seq<string>>, next: int)
    ensures lines == ItemLines(cite, items, index)
    ensures lines.Some? ==> next == index + |lines.value|
  {
    var out: seq<string> := [];
    next := index;
    var j := 0;
    while j < |items|
      invariant 0 <= j <= |items|
      invariant ItemLines(cite, items[..j], index) == Some(out)
      invariant next == index + |out|
    {
      assert items[..j + 1][..j] == items[..j];
      var c := cite(next, items[j]);
      if c.Raise? {
        ItemLinesStayNone(cite, items, j + 1, index);
        return None, next;
      }
      if c.Line? {
        out := out + [c.text];
        next := next + 1;
      }
      j := j + 1;
    }
    assert items[..j] == items;
    lines := Some(out);
  }

  /** One step result of `format_citations`: only web-search and knowledge-source steps are cited. */
  method CiteStep(step: Record, index: int) returns (lines: Option<seq<string>>, next: int)
    ensures lines == StepLines(step, index)
    ensures lines.Some? ==> next == index + |lines.value|
  {
    next := index;
    var t := Get(step, "type");
    if t.None? {
      return None, next;
    }
    if t.value == JStr("web_search") || t.value == JStr("knowledge_source") {
      var items := Iterate(GetOr(step, "results", JList([])));
      if items.None? {
        return None, next;
      }
      lines, next := CiteItems(CiteFor(t.value == JStr("web_search"), Get(step, "source")), items.value, index);
    } else {
      lines := Some([]);
    }
  }

  /** The loops of `format_citations`, with their running citation index. */
  method CollectCitations(steps: seq<Record>) returns (lines: Option<seq<string>>)
    ensures lines == RunLines(steps)
  {
    var citations: seq<string> := [];
    var index := 1;
    var i := 0;
    while i < |steps|
      invariant 0 <= i <= |steps|
      invariant RunLines(steps[..i]) == Some(citations)
      invariant index == |citations| + 1
    {
      assert steps[..i + 1][..i] == steps[..i];
      var more;
      more, index := CiteStep(steps[i], index);
      if more.None? {
        RunLinesRaise(steps, i);
        return None;
      }
      citations := citations + more.value;
      i := i + 1;
    }
    assert steps[..i] == steps;
    lines := Some(citations);
  }

  /** `format_citations`: "" without citations, otherwise the numbered references section. */
  method FormatCitations(run: Run) returns (r: Option<string>)
    ensures r == match RunLines(run.results) case Some(lines) => Some(Section(lines)) case None => None
  {
    var lines := CollectCitations(run.results);
    if lines.None? {
      return None;
    }
    if lines.value == [] {
      return Some("");
    }
    r := Some("## References\n\n" + Text.Join(lines.value, '\n'));
  }

  lemma {:induction false} ItemLinesStayNone(cite: CiteFn, items: seq<Json>, m: int, start: int)
    requires 0 <= m <= |items|
    requires ItemLines(cite, items[..m], start).None?
    ensures ItemLines(cite, items, start).None?
    decreases |items| - m
  {
    if m < |items| {
      var p := items[..m + 1];
      assert p[..|p| - 1] == items[..m];
      ItemLinesStayNone(cite, items, m + 1, start);
    } else {
      assert items[..m] == items;
    }
  }

  /** The step at `i` raising makes the whole traversal raise. */
  lemma RunLinesRaise(steps: seq<Record>, i: int)
    requires 0 <= i < |steps|
    requires RunLines(steps[..i]).Some?
    requires StepLines(steps[i], 1 + |RunLines(steps[..i]).value|).None?
    ensures RunLines(steps).None?
  {
    Text.PrefixLast(steps, i);
    RunLinesLastRaises(steps[..i + 1]);
    RunLinesStayNone(steps, i + 1);
  }

  /** Once a prefix raises, every longer prefix raises. */
  lemma {:induction false} RunLinesStayNone(steps: seq<Record>, m: int)
    requires 0 <= m <= |steps|
    requires RunLines(steps[..m]).None?
    ensures RunLines(steps).None?
    decreases |steps| - m
  {
    if m < |steps| {
      Text.PrefixLast(steps, m);
      RunLinesSnocNone(steps[..m + 1]);
      RunLinesStayNone(steps, m + 1);
    } else {
      assert steps[..m] == steps;
    }
  }

  /** One more step leaves a raising traversal raising. */
  lemma RunLinesSnocNone(steps: seq<Record>)
    requires steps != [] && RunLines(steps[..|steps| - 1]).None?
    ensures RunLines(steps).None?
  {
  }

  /** A last step that raises makes the traversal raise. */
  lemma RunLinesLastRaises(steps: seq<Record>)
    requires steps != [] && RunLines(steps[..|steps| - 1]).Some?
    requires StepLines(steps[|steps| - 1], 1 + |RunLines(steps[..|steps| - 1]).value|).None?
    ensures RunLines(steps).None?
  {
  }

  /** Lines numbered consecutively from `start`. */
  predicate NumberedFrom(lines: seq<string>, start: int) {
    forall k :: 0 <= k < |lines| ==> Text.StartsWith(lines[k], Text.IntToString(start + k) + ". ")
  }

  /** A citation numbered `n` starts with "n. ". */
  ghost predicate Numbers(cite: CiteFn) {
    forall n, item :: cite(n, item).Line? ==> Text.StartsWith(cite(n, item).text, Text.IntToString(n) + ". ")
  }

  lemma CiteForNumbers(web: bool, source: Option<Json>)
    ensures Numbers(CiteFor(web, source))
  {
  }

  lemma {:induction false} ItemLinesNumbered(cite: CiteFn, items: seq<Json>, start: int)
    requires Numbers(cite)
    requires ItemLines(cite, items, start).Some?
    ensures NumberedFrom(ItemLines(cite, items, start).value, start)
    ensures |ItemLines(cite, items, start).value| <= |items|
    decreases |items|
  {
    if items != [] {
      var init := items[..|items| - 1];
      ItemLinesNumbered(cite, init, start);
      var prefix := ItemLines(cite, init, start).value;
      var c := cite(start + |prefix|, items[|items| - 1]);
      if c.Line? {
        assert Text.StartsWith(c.text, Text.IntToString(start + |prefix|) + ". ");
        assert NumberedFrom([c.text], start + |prefix|);
        NumberedConcat(prefix, [c.text], start);
      }
    }
  }

  lemma NumberedConcat(a: seq<string>, b: seq<string>, start: int)
    requires NumberedFrom(a, start) && NumberedFrom(b, start + |a|)
    ensures NumberedFrom(a + b, start)
  {
    forall k | 0 <= k < |a + b| ensures Text.StartsWith((a + b)[k], Text.IntToString(start + k) + ". ") {
      if k >= |a| {
        assert (a + b)[k] == b[k - |a|];
      } else {
        assert (a + b)[k] == a[k];
      }
    }
  }

  lemma StepLinesNumbered(step: Record, start: int)
    requires StepLines(step, start).Some?
    ensures NumberedFrom(StepLines(step, start).value, start)
  {
    var t := Get(step, "type").value;
    if t == JStr("web_search") || t == JStr("knowledge_source") {
      var items := Iterate(GetOr(step, "results", JList([]))).value;
      CiteForNumbers(t == JStr("web_search"), Get(step, "source"));
      ItemLinesNumbered(CiteFor(t == JStr("web_search"), Get(step, "source")), items, start);
    }
  }

  lemma {:induction false} RunLinesNumbered(steps: seq<Record>)
    requires RunLines(steps).Some?
    ensures NumberedFrom(RunLines(steps).value, 1)
    decreases |steps|
  {
    if steps != [] {
      var init := steps[..|steps| - 1];
      RunLinesNumbered(init);
      var prefix := RunLines(init).value;
      var more := StepLines(steps[|steps| - 1], 1 + |prefix|).value;
      assert RunLines(steps).value == prefix + more;
      StepLinesNumbered(steps[|steps| - 1], 1 + |prefix|);
      NumberedConcat(prefix, more, 1);
    }
  }

  /**
   * `format_citations` returns "" exactly when there are no citation lines;
   * otherwise the section starts with "## References" and its lines are
   * numbered 1, 2, ... in traversal order. `CitationsEmpty` ties the lines
   * back to the items.
   */
  lemma CitationsNumbered(run: Run)
    requires RunLines(run.results).Some?
    ensures var lines := RunLines(run.results).value;
      && NumberedFrom(lines, 1)
      && (Section(lines) == "" <==> lines == [])
      && (lines != [] ==> Section(lines) == "## References\n\n" + Text.Join(lines, '\n'))
  {
    RunLinesNumbered(run.results);
  }

  /** An item that is cited: a record holding both "title" and "url". */
  predicate Citable(item: Json) {
    item.JObj? && Has(item.fields, "title") && Has(item.fields, "url")
  }

  /** The number of citable items. */
  function CitableCount(items: seq<Json>): (r: nat)
    ensures r <= |items|
  {
    if items == [] then 0
    else CitableCount(items[..|items| - 1]) + (if Citable(items[|items| - 1]) then 1 else 0)
  }

  /** No item is citable exactly when the count is zero. */
  lemma {:induction false} CitableCountZero(items: seq<Json>)
    ensures CitableCount(items) == 0 <==> forall i :: 0 <= i < |items| ==> !Citable(items[i])
    decreases |items|
  {
    if items != [] {
      var init := items[..|items| - 1];
      CitableCountZero(init);
      assert forall i :: 0 <= i < |init| ==> init[i] == items[i];
    }
  }

  /** Unless it raises, `cite` gives a line exactly for the citable items, whatever the number. */
  ghost predicate CitesCitable(cite: CiteFn) {
    forall n, item :: !cite(n, item).Raise? ==> (cite(n, item).Line? <==> Citable(item))
  }

  lemma CiteForCitable(web: bool, source: Option<Json>)
    ensures CitesCitable(CiteFor(web, source))
  {
  }

  /** Items that do not raise give one line per citable item. */
  lemma {:induction false} ItemLinesCount(cite: CiteFn, items: seq<Json>, start: int)
    requires CitesCitable(cite)
    requires ItemLines(cite, items, start).Some?
    ensures |ItemLines(cite, items, start).value| == CitableCount(items)
    decreases |items|
  {
    if items != [] {
      ItemLinesCount(cite, items[..|items| - 1], start);
    }
  }

  /** The items a step's citations are drawn from: the results of a web_search or knowledge_source step. */
  function CitedItems(step: Record): seq<Json> {
    match Get(step, "type")
    case None => []
    case Some(t) =>
      if t == JStr("web_search") || t == JStr("knowledge_source") then
        match Iterate(GetOr(step, "results", JList([])))
        case None => []
        case Some(items) => items
      else []
  }

  /** The items of all web_search and knowledge_source steps, in traversal order. */
  function RunItems(steps: seq<Record>): seq<Json> {
    if steps == [] then [] else RunItems(steps[..|steps| - 1]) + CitedItems(steps[|steps| - 1])
  }

  /** Counting distributes over concatenation. */
  lemma {:induction false} CitableCountAppend(a: seq<Json>, b: seq<Json>)
    ensures CitableCount(a + b) == CitableCount(a) + CitableCount(b)
    decreases |b|
  {
    if b != [] {
      var b' := b[..|b| - 1];
      CitableCountAppend(a, b');
      assert (a + b)[..|a + b| - 1] == a + b';
      assert (a + b)[|a + b| - 1] == b[|b| - 1];
    } else {
      assert a + b == a;
    }
  }

  /** A traversal that does not raise has one line per citable item of its steps. */
  lemma {:induction false} RunLinesCount(steps: seq<Record>)
    requires RunLines(steps).Some?
    ensures |RunLines(steps).value| == CitableCount(RunItems(steps))
    decreases |steps|
  {
    if steps != [] {
      var init := steps[..|steps| - 1];
      var last := steps[|steps| - 1];
      RunLinesCount(init);
      CitableCountAppend(RunItems(init), CitedItems(last));
      var start := 1 + |RunLines(init).value|;
      var t := Get(last, "type").value;
      if t == JStr("web_search") || t == JStr("knowledge_source") {
        CiteForCitable(t == JStr("web_search"), Get(last, "source"));
        ItemLinesCount(CiteFor(t == JStr("web_search"), Get(last, "source")),
                       Iterate(GetOr(last, "results", JList([]))).value, start);
      }
    }
  }

  /**
   * The section `format_citations` returns has one line per citable item of
   * its web_search and knowledge_source steps, so it is "" exactly when none is citable.
   */
  lemma CitationsEmpty(run: Run)
    requires RunLines(run.results).Some?
    ensures |RunLines(run.results).value| == CitableCount(RunItems(run.results))
    ensures Section(RunLines(run.results).value) == ""
            <==> forall i :: 0 <= i < |RunItems(run.results)| ==> !Citable(RunItems(run.results)[i])
  {
    RunLinesCount(run.results);
    CitableCountZero(RunItems(run.results));
  }

  /** Step results of any type but web_search and knowledge_source contribute no citation. */
  lemma OtherStepsUncited(step: Record, start: int)
    requires Get(step, "type").Some?
    requires Get(step, "type").value != JStr("web_search") && Get(step, "type").value != JStr("knowledge_source")
    ensures StepLines(step, start) == Some([])
  {
  }

  /** A web page is cited exactly when it is a record holding both "url" and "title". */
  lemma WebCiteWhen(n: int, page: Record)
    ensures WebCite(n, JObj(page)).Line? <==> Has(page, "url") && Has(page, "title")
  {
  }

  /** A cited page's line is its number, its title and its url. */
  lemma WebCiteText(n: int, page: Record)
    requires Has(page, "url") && Has(page, "title")
    ensures WebCite(n, JObj(page)).Line?
    ensures WebCite(n, JObj(page)).text == Text.IntToString(n) + ". " + PyStr(Get(page, "title").value)
                                           + ". Retrieved from " + PyStr(Get(page, "url").value)
  {
    var t, u := PyStr(Get(page, "title").value), PyStr(Get(page, "url").value);
    assert WebCite(n, JObj(page)) == Line(Numbered(n, t + ". Retrieved from " + u));
    NumberedRetrieved(n, t, u);
  }

  /**
   * A knowledge item is cited exactly when it is a record holding both "title"
   * and "url"; one without either is skipped whatever the source is.
   */
  lemma KnowledgeCiteWhen(n: int, item: Record, s: string)
    ensures KnowledgeCite(n, JObj(item), Some(JStr(s))).Line? <==> Has(item, "title") && Has(item, "url")
    ensures forall source :: !(Has(item, "title") && Has(item, "url")) ==> KnowledgeCite(n, JObj(item), source) == Skip
  {
  }

  /** A cited knowledge item whose step source is not a string makes `.capitalize()` raise. */
  lemma KnowledgeCiteRaises(n: int, item: Record, source: Option<Json>)
    requires Has(item, "title") && Has(item, "url") && !(source.Some? && source.value.JStr?)
    ensures KnowledgeCite(n, JObj(item), source) == Raise
  {
  }

  /** A cited knowledge item's line is its number, its title, the capitalised source and its url. */
  lemma KnowledgeCiteText(n: int, item: Record, s: string)
    requires Has(item, "title") && Has(item, "url")
    ensures KnowledgeCite(n, JObj(item), Some(JStr(s))).Line?
    ensures KnowledgeCite(n, JObj(item), Some(JStr(s))).text
      == Text.IntToString(n) + ". " + PyStr(Get(item, "title").value) + ". " + Text.Capitalize(s)
         + ". Retrieved from " + PyStr(Get(item, "url").value)
  {
    var t, u := PyStr(Get(item, "title").value), PyStr(Get(item, "url").value);
    var c := Text.Capitalize(s);
    assert KnowledgeCite(n, JObj(item), Some(JStr(s))) == Line(Numbered(n, t + ". " + c + ". Retrieved from " + u));
    NumberedSourced(n, t, c, u);
  }

  lemma NumberedSourced(n: int, t: string, c: string, u: string)
    ensures Numbered(n, t + ". " + c + ". Retrieved from " + u)
      == Text.IntToString(n) + ". " + t + ". " + c + ". Retrieved from " + u
  {
    var p := Text.IntToString(n) + ". ";
    assert p + (t + ". " + c + ". Retrieved from " + u) == p + t + ". " + c + ". Retrieved from " + u;
  }

  lemma NumberedRetrieved(n: int, t: string, u: string)
    ensures Numbered(n, t + ". Retrieved from " + u) == Text.IntToString(n) + ". " + t + ". Retrieved from " + u
  {
    var p := Text.IntToString(n) + ". ";
    assert p + (t + ". Retrieved from " + u) == p + t + ". Retrieved from " + u;
  }

}
