/**
 * The arXiv knowledge source (knowledge/sources/arxiv.py): the request it
 * sends to the arXiv API and the paper records it builds from the Atom
 * entries of the reply.
 *
 * The HTTP exchange and the XML parser are oracles: a reply is the list of
 * entries, each with the elements and attributes `_parse_entry` reads, or
 * `None` when the request fails, the status is not 200 or the XML does not
 * parse. The `strptime`/`strftime` date round trip is an oracle too.
 */
module Arxiv {
  import opened Wrappers
  import opened Values
  import Text
  import Mcp

  const DefaultCap := 10
  const AbsPrefix := "https://arxiv.org/abs/"

  /** An element as `find` returns it: missing, present without text, or present with text. */
  datatype Node = Absent | Blank | Holds(text: string)

  /** An `atom:link` element's `title` and `href` attributes. */
  datatype Link = Link(title: Option<string>, href: Option<string>)

  /**
   * One `atom:entry`. `primary` and `terms` are the `term` attributes of the
   * primary category and of the categories, `""` where the attribute is
   * missing (both are falsy to the code that reads them).
   */
  datatype Entry = Entry(title: Node, authors: seq<Node>, summary: Node, published: Node,
                         id: Node, links: seq<Link>, primary: string, terms: seq<string>)

  /** The query parameters of the API request. */
  datatype Request = Request(searchQuery: string, maxResults: int, sortBy: string, sortOrder: string)

  /** The reformatting of a publication stamp: `None` when `strptime` rejects it. */
  type DateOf = string -> Option<string>

  function Min(a: int, b: int): int {
    if a <= b then a else b
  }

  /** The API's sort key: the two date orders pass through, everything else is relevance. */
  function SortParam(sortBy: string): (r: string)
    ensures r == "relevance" || r == "lastUpdatedDate" || r == "submittedDate"
    ensures sortBy == "lastUpdatedDate" || sortBy == "submittedDate" ==> r == sortBy
    ensures sortBy != "lastUpdatedDate" && sortBy != "submittedDate" ==> r == "relevance"
  {
    if sortBy == "lastUpdatedDate" then "lastUpdatedDate"
    else if sortBy == "submittedDate" then "submittedDate"
    else "relevance"
  }

  /** The request `query` sends: capped result count, category filter, sort key, descending order. */
  function BuildRequest(query: string, maxResults: int, category: string, sortBy: string, cap: int): (r: Request)
    ensures r.maxResults <= maxResults && r.maxResults <= cap
    ensures r.maxResults == maxResults || r.maxResults == cap
    ensures category != "" ==> r.searchQuery == "cat:" + category + " AND " + query
    ensures category == "" ==> r.searchQuery == query
    ensures r.sortBy == SortParam(sortBy) && r.sortOrder == "descending"
  {
    var search := if category != "" then "cat:" + category + " AND " + query else query;
    Request(search, Min(maxResults, cap), SortParam(sortBy), "descending")
  }

  /** `re.sub(r'\s+', ' ', s)`: every run of whitespace becomes one space. */
  function Squeeze(s: string): (r: string)
    ensures |r| <= |s|
    ensures r == [] <==> s == []
    ensures forall i :: 0 <= i < |r| ==> (Text.IsSpace(r[i]) ==> r[i] == ' ')
    ensures forall i :: 0 <= i < |r| - 1 ==> !(Text.IsSpace(r[i]) && Text.IsSpace(r[i + 1]))
    ensures r != [] ==> (Text.IsSpace(r[0]) <==> Text.IsSpace(s[0]))
    ensures r != [] ==> (Text.IsSpace(r[|r| - 1]) <==> Text.IsSpace(s[|s| - 1]))
  {
    SqueezeBlank(s);
    SqueezeNoDouble(s);
    SqueezeFirst(s);
    SqueezeLast(s);
    SqueezeRuns(s)
  }

  /** The substitution run by run: a run of whitespace is replaced by one space. */
  function SqueezeRuns(s: string): (r: string)
    ensures |r| <= |s|
    ensures r == [] <==> s == []
    decreases |s|
  {
    if s == [] then []
    else if Text.IsSpace(s[0]) then
      var rest := Text.StripLeft(s[1..]);
      if rest == [] then " " else " " + SqueezeRuns(rest)
    else [s[0]] + SqueezeRuns(s[1..])
  }

  /** The only whitespace left is the plain space. */
  lemma {:induction false} SqueezeBlank(s: string)
    ensures forall i :: 0 <= i < |SqueezeRuns(s)| ==> (Text.IsSpace(SqueezeRuns(s)[i]) ==> SqueezeRuns(s)[i] == ' ')
    decreases |s|
  {
    if s != [] {
      var r := SqueezeRuns(s);
      if Text.IsSpace(s[0]) {
        var rest := Text.StripLeft(s[1..]);
        if rest != [] {
          SqueezeBlank(rest);
          var t := SqueezeRuns(rest);
          assert r == " " + t;
          forall i | 0 <= i < |r| ensures Text.IsSpace(r[i]) ==> r[i] == ' ' {
            if i > 0 {
              assert r[i] == t[i - 1];
            }
          }
        } else {
          assert r == " ";
        }
      } else {
        SqueezeBlank(s[1..]);
        var t := SqueezeRuns(s[1..]);
        assert r == [s[0]] + t;
        forall i | 0 <= i < |r| ensures Text.IsSpace(r[i]) ==> r[i] == ' ' {
          if i > 0 {
            assert r[i] == t[i - 1];
          }
        }
      }
    }
  }

  /** The first character is whitespace exactly when the input's is. */
  lemma SqueezeFirst(s: string)
    ensures SqueezeRuns(s) != [] ==> (Text.IsSpace(SqueezeRuns(s)[0]) <==> Text.IsSpace(s[0]))
  {
  }

  /** The last character is whitespace exactly when the input's is. */
  lemma SqueezeLast(s: string)
    ensures SqueezeRuns(s) != [] ==> (Text.IsSpace(SqueezeRuns(s)[|SqueezeRuns(s)| - 1]) <==> Text.IsSpace(s[|s| - 1]))
  {
    SqueezeLastChar(s);
  }

  /** A trailing whitespace run ends in one space; otherwise the last character is kept. */
  lemma {:induction false} SqueezeLastChar(s: string)
    ensures s != [] ==> SqueezeRuns(s)[|SqueezeRuns(s)| - 1] == if Text.IsSpace(s[|s| - 1]) then ' ' else s[|s| - 1]
    decreases |s|
  {
    if s != [] {
      if |s| > 1 {
        assert s[1..][|s| - 2] == s[|s| - 1];
      }
      if Text.IsSpace(s[0]) {
        var rest := Text.StripLeft(s[1..]);
        if rest == [] {
          assert SqueezeRuns(s) == " ";
          if |s| > 1 {
            StripLeftAllSpace(s[1..]);
          }
        } else {
          SqueezeLastChar(rest);
          StripLeftLast(s[1..]);
          assert SqueezeRuns(s) == " " + SqueezeRuns(rest);
          ConsLast(' ', SqueezeRuns(rest));
        }
      } else if |s| > 1 {
        SqueezeLastChar(s[1..]);
        assert SqueezeRuns(s) == [s[0]] + SqueezeRuns(s[1..]);
        ConsLast(s[0], SqueezeRuns(s[1..]));
      } else {
        assert SqueezeRuns(s) == [s[0]] + [];
      }
    }
  }

  lemma ConsLast(c: char, t: string)
    requires t != []
    ensures ([c] + t)[|t|] == t[|t| - 1]
  {
  }

  /** Stripping the front keeps the last character when anything is left. */
  lemma StripLeftLast(s: string)
    requires Text.StripLeft(s) != []
    ensures Text.StripLeft(s)[|Text.StripLeft(s)| - 1] == s[|s| - 1]
  {
    var r := Text.StripLeft(s);
    assert r == s[|s| - |r|..];
  }

  /** A string that strips to nothing ends in whitespace. */
  lemma StripLeftAllSpace(s: string)
    requires s != [] && Text.StripLeft(s) == []
    ensures Text.IsSpace(s[|s| - 1])
  {
  }

  /** No two whitespace characters follow each other. */
  lemma {:induction false} SqueezeNoDouble(s: string)
    ensures forall i :: 0 <= i < |SqueezeRuns(s)| - 1 ==> !(Text.IsSpace(SqueezeRuns(s)[i]) && Text.IsSpace(SqueezeRuns(s)[i + 1]))
    decreases |s|
  {
    if s != [] {
      var r := SqueezeRuns(s);
      var rest := if Text.IsSpace(s[0]) then Text.StripLeft(s[1..]) else s[1..];
      if rest != [] {
        SqueezeNoDouble(rest);
        SqueezeFirst(rest);
        var t := SqueezeRuns(rest);
        assert r == (if Text.IsSpace(s[0]) then " " else [s[0]]) + t;
        forall i | 0 <= i < |r| - 1 ensures !(Text.IsSpace(r[i]) && Text.IsSpace(r[i + 1])) {
          assert r[i + 1] == t[i];
          if i > 0 {
            assert r[i] == t[i - 1];
          }
        }
      }
    }
  }

  /** The non-whitespace characters of a string, in order. */
  function NonSpace(s: string): string {
    if s == [] then [] else (if Text.IsSpace(s[0]) then [] else [s[0]]) + NonSpace(s[1..])
  }

  lemma NonSpaceCons(c: char, s: string)
    ensures NonSpace([c] + s) == (if Text.IsSpace(c) then [] else [c]) + NonSpace(s)
  {
    assert ([c] + s)[1..] == s;
  }

  /**
   * The regular-expression substitution read as a left-to-right scan: a
   * whitespace character right after another is dropped, any other
   * whitespace character becomes one space, and everything else is copied.
   */
  function Scan(s: string, afterSpace: bool): string {
    if s == [] then []
    else if Text.IsSpace(s[0]) then (if afterSpace then [] else " ") + Scan(s[1..], true)
    else [s[0]] + Scan(s[1..], false)
  }

  /** Inside a whitespace run, the rest of the run adds nothing. */
  lemma {:induction false} ScanStripLeft(s: string)
    ensures Scan(s, true) == Scan(Text.StripLeft(s), true)
  {
    if s != [] && Text.IsSpace(s[0]) {
      ScanStripLeft(s[1..]);
    }
  }

  /** The scan copies every non-whitespace character, in order. */
  lemma {:induction false} ScanKeepsText(s: string, afterSpace: bool)
    ensures NonSpace(Scan(s, afterSpace)) == NonSpace(s)
  {
    if s != [] {
      ScanKeepsText(s[1..], Text.IsSpace(s[0]));
      var head := if Text.IsSpace(s[0]) then (if afterSpace then [] else " ") else [s[0]];
      NonSpaceAppend(head, Scan(s[1..], Text.IsSpace(s[0])));
      NonSpaceCons(s[0], s[1..]);
    }
  }

  lemma {:induction false} NonSpaceAppend(a: string, b: string)
    ensures NonSpace(a + b) == NonSpace(a) + NonSpace(b)
  {
    if a != [] {
      assert (a + b)[1..] == a[1..] + b;
      NonSpaceAppend(a[1..], b);
    } else {
      assert a + b == b;
    }
  }

  /** Squeezing keeps the non-whitespace text, in order. */
  lemma SqueezeKeepsText(s: string)
    ensures NonSpace(Squeeze(s)) == NonSpace(s)
  {
    SqueezeIsScan(s);
    ScanKeepsText(s, false);
  }

  /** `Squeeze` is exactly the scan: each whitespace run becomes one space and nothing else changes. */
  lemma {:induction false} SqueezeIsScan(s: string)
    ensures Squeeze(s) == Scan(s, false)
    decreases |s|
  {
    if s != [] {
      if Text.IsSpace(s[0]) {
        var rest := Text.StripLeft(s[1..]);
        ScanStripLeft(s[1..]);
        if rest != [] {
          SqueezeIsScan(rest);
        }
      } else {
        SqueezeIsScan(s[1..]);
      }
    }
  }

  /** A cleaned abstract has no whitespace at either end and no two whitespace characters in a row. */
  lemma AbstractShape(text: string)
    ensures var a := Squeeze(Text.Strip(text));
      && (a != [] ==> !Text.IsSpace(a[0]) && !Text.IsSpace(a[|a| - 1]))
      && (forall i :: 0 <= i < |a| - 1 ==> !(Text.IsSpace(a[i]) && Text.IsSpace(a[i + 1])))
  {
  }

  predicate Named(n: Node) {
    n.Holds? && n.text != ""
  }

  /** The authors: the stripped text of every name element that has non-empty text, in order. */
  function Authors(names: seq<Node>): (r: seq<string>)
    ensures |r| <= |names|
  {
    if names == [] then []
    else
      var init := Authors(names[..|names| - 1]);
      var n := names[|names| - 1];
      if Named(n) then init + [Text.Strip(n.text)] else init
  }

  /** One more name element adds its author when it has text. */
  lemma AuthorsStep(names: seq<Node>, i: int)
    requires 0 <= i < |names|
    ensures Named(names[i]) ==> Authors(names[..i + 1]) == Authors(names[..i]) + [Text.Strip(names[i].text)]
    ensures !Named(names[i]) ==> Authors(names[..i + 1]) == Authors(names[..i])
  {
    assert names[..i + 1][..i] == names[..i];
  }

  /** When every name element has text, no author is dropped. */
  lemma {:induction false} AuthorsAllNamed(names: seq<Node>)
    requires forall k :: 0 <= k < |names| ==> Named(names[k])
    ensures |Authors(names)| == |names|
  {
    if names != [] {
      var init := names[..|names| - 1];
      assert forall k :: 0 <= k < |init| ==> init[k] == names[k];
      AuthorsAllNamed(init);
    }
  }

  /** Every author is the stripped text of a name element with non-empty text. */
  lemma {:induction false} AuthorsFromNames(names: seq<Node>, i: int)
    requires 0 <= i < |Authors(names)|
    ensures exists k :: 0 <= k < |names| && Named(names[k]) && Authors(names)[i] == Text.Strip(names[k].text)
  {
    var init := names[..|names| - 1];
    var n := names[|names| - 1];
    var a := Authors(init);
    assert Authors(names) == if Named(n) then a + [Text.Strip(n.text)] else a;
    if i < |a| {
      assert Authors(names)[i] == a[i];
      AuthorsFromNames(init, i);
      var k :| 0 <= k < |init| && Named(init[k]) && a[i] == Text.Strip(init[k].text);
      assert names[k] == init[k];
    } else {
      assert Named(n);
      assert Authors(names)[i] == Text.Strip(n.text);
      assert names[|names| - 1] == n;
    }
  }

  /**
   * The categories: the primary category first when it has a term, then
   * every other non-empty term not listed yet, in document order.
   */
  function Categories(primary: string, terms: seq<string>): (r: seq<string>)
    ensures Text.Distinct(r)
    ensures primary != "" ==> r != [] && r[0] == primary
    ensures forall c :: c in r <==> c != "" && (c == primary || c in terms)
  {
    if terms == [] then (if primary != "" then [primary] else [])
    else
      var init := Categories(primary, terms[..|terms| - 1]);
      var t := terms[|terms| - 1];
      assert forall c :: c in terms <==> c in terms[..|terms| - 1] || c == t;
      if t != "" && t !in init then init + [t] else init
  }

  /** The last index of `c` in `s`, or -1. */
  function LastIndex(s: string, c: char): (r: int)
    ensures -1 <= r < |s|
    ensures r >= 0 ==> s[r] == c
    ensures forall k :: r < k < |s| ==> s[k] != c
  {
    if s == [] then -1
    else if s[|s| - 1] == c then |s| - 1
    else LastIndex(s[..|s| - 1], c)
  }

  /**
   * The group of `re.search(r'abs/([^/]+)$', text)`, or `""` without a match:
   * the non-empty text after the last slash, when that slash ends "abs/".
   */
  function IdFrom(text: string): (r: string)
    ensures r != "" ==> !Text.HasChar(r, '/') && exists p :: text == p + "abs/" + r
  {
    var i := LastIndex(text, '/');
    if 3 <= i && i + 1 < |text| && text[i - 3..i + 1] == "abs/" then
      assert text == text[..i - 3] + "abs/" + text[i + 1..];
      text[i + 1..]
    else ""
  }

  /** An identifier URL yields exactly the text after its last "abs/". */
  lemma IdFromUrl(p: string, id: string)
    requires id != "" && !Text.HasChar(id, '/')
    ensures IdFrom(p + "abs/" + id) == id
  {
    var text := p + "abs/" + id;
    var i := |p| + 3;
    assert text[i] == '/';
    assert forall k :: i < k < |text| ==> text[k] == id[k - i - 1];
    LastIndexIs(text, '/', i);
    assert text[i - 3..i + 1] == "abs/";
    assert text[i + 1..] == id;
  }

  lemma LastIndexIs(s: string, c: char, i: int)
    requires 0 <= i < |s| && s[i] == c && forall k :: i < k < |s| ==> s[k] != c
    ensures LastIndex(s, c) == i
  {
  }

  /** The first index of `c` in `s`, or `|s|`. */
  function FirstIndex(s: string, c: char): (r: int)
    ensures 0 <= r <= |s|
    ensures r < |s| ==> s[r] == c
    ensures forall k :: 0 <= k < r ==> s[k] != c
  {
    if s == [] then 0
    else if s[0] == c then 0
    else 1 + FirstIndex(s[1..], c)
  }

  /**
   * `(.+)$` matched at the start of `rest`: the greedy run up to the first
   * newline, which must reach the end or a final newline.
   */
  function RunToEnd(rest: string): (r: Option<string>)
    ensures r.Some? ==> r.value != "" && !Text.HasChar(r.value, '\n')
  {
    var k := FirstIndex(rest, '\n');
    if k >= 1 && (k == |rest| || k == |rest| - 1) then Some(rest[..k]) else None
  }

  /**
   * The group of `re.search(r'doi.org/(.+)$', s)`: the leftmost place where
   * "doi", one character other than a newline (the unescaped dot), "org/" and
   * a run to the end occur.
   */
  function DoiSearch(s: string): (r: Option<string>)
    ensures r.Some? ==> r.value != "" && !Text.HasChar(r.value, '\n')
    decreases |s|
  {
    if |s| < 8 then None
    else if s[..3] == "doi" && s[3] != '\n' && s[4..8] == "org/" && RunToEnd(s[8..]).Some? then RunToEnd(s[8..])
    else DoiSearch(s[1..])
  }

  lemma DoiSkip(c: char, s: string)
    requires c != 'd'
    ensures DoiSearch([c] + s) == DoiSearch(s)
  {
    var t := [c] + s;
    assert t[1..] == s;
    if |t| >= 8 {
      assert t[..3][0] == c;
    }
  }

  /** Characters other than 'd' in front of a string start no match. */
  lemma {:induction false} DoiSkipPrefix(p: string, s: string)
    requires forall k :: 0 <= k < |p| ==> p[k] != 'd'
    ensures DoiSearch(p + s) == DoiSearch(s)
  {
    if p != [] {
      DoiSkipPrefix(p[1..], s);
      assert p + s == [p[0]] + (p[1..] + s);
      DoiSkip(p[0], p[1..] + s);
    } else {
      assert p + s == s;
    }
  }

  /** A DOI resolver link yields the DOI it carries. */
  lemma DoiOfResolverUrl(doi: string)
    requires doi != "" && !Text.HasChar(doi, '\n')
    ensures DoiSearch("https://doi.org/" + doi) == Some(doi)
  {
    var s := "doi.org/" + doi;
    assert s[..3] == "doi" && s[3] == '.' && s[4..8] == "org/" && s[8..] == doi;
    assert FirstIndex(doi, '\n') == |doi|;
    assert doi[..|doi|] == doi;
    assert RunToEnd(doi) == Some(doi);
    assert DoiSearch(s) == Some(doi);
    var p := "https://";
    DoiSkipPrefix(p, s);
    assert "https://doi.org/" + doi == p + s;
  }

  /** The first link whose `title` attribute is `title`. */
  function FirstTitled(links: seq<Link>, title: string): (r: Option<Link>)
    ensures r.None? <==> forall i :: 0 <= i < |links| ==> links[i].title != Some(title)
    ensures r.Some? ==> exists i :: 0 <= i < |links| && links[i] == r.value && r.value.title == Some(title)
                                    && (forall j :: 0 <= j < i ==> links[j].title != Some(title))
  {
    if links == [] then None
    else if links[0].title == Some(title) then Some(links[0])
    else
      var r := FirstTitled(links[1..], title);
      assert forall i :: 0 <= i < |links| - 1 ==> links[1..][i] == links[i + 1];
      r
  }

  /** `pdf_url`: the `href` of the first "pdf" link, `""` without one. */
  function PdfUrl(links: seq<Link>): string {
    match FirstTitled(links, "pdf")
    case None => ""
    case Some(l) => l.href.GetOr("")
  }

  /** `doi`: the DOI in the first "doi" link's `href`; later "doi" links are never read. */
  function Doi(links: seq<Link>): string {
    match FirstTitled(links, "doi")
    case None => ""
    case Some(l) => DoiSearch(l.href.GetOr("")).GetOr("")
  }

  /** The `published` field: the reformatted date when the stamp parses, the text as is otherwise, `None` for an empty element. */
  function Published(n: Node, dateOf: DateOf): Json {
    match n
    case Absent => JStr("")
    case Blank => JNull
    case Holds(t) => JStr(if t == "" then t else dateOf(t).GetOr(t))
  }

  function ArxivId(n: Node): string {
    if n.Holds? && n.text != "" then IdFrom(n.text) else ""
  }

  /** The ten fields of a paper record, in the order the code writes them. */
  function Fields(title: Json, authors: Json, summary: Json, published: Json, id: Json,
                  url: Json, pdf: Json, categories: Json, doi: Json, source: Json): Record {
    [ ("title", title), ("authors", authors), ("abstract", summary), ("published", published),
      ("arxiv_id", id), ("url", url), ("pdf_url", pdf), ("categories", categories),
      ("doi", doi), ("source", source) ]
  }

  lemma FieldsIdentity(title: Json, authors: Json, summary: Json, published: Json, id: Json,
                       url: Json, pdf: Json, categories: Json, doi: Json, source: Json)
    ensures var r := Fields(title, authors, summary, published, id, url, pdf, categories, doi, source);
      Get(r, "url") == Some(url) && Get(r, "source") == Some(source)
  {
    GetFirst(Fields(title, authors, summary, published, id, url, pdf, categories, doi, source), 5);
    GetFirst(Fields(title, authors, summary, published, id, url, pdf, categories, doi, source), 9);
  }

  function Paper(title: string, authors: seq<string>, summary: string, published: Json, id: string,
                 pdf: string, categories: seq<string>, doi: string): Record {
    Fields(JStr(title), JList(Strings(authors)), JStr(summary), published, JStr(id),
           JStr(AbsPrefix + id), JStr(pdf), JList(Strings(categories)), JStr(doi), JStr("arxiv"))
  }

  /**
   * The paper record `_parse_entry` returns; `[]` is the `{}` it returns when
   * a title or summary element has no text, whose `.strip()` raises.
   */
  function EntryRecord(e: Entry, dateOf: DateOf): (r: Record)
    ensures r == [] <==> e.title.Blank? || e.summary.Blank?
  {
    if e.title.Blank? || e.summary.Blank? then []
    else
      Paper(if e.title.Holds? then Text.Strip(e.title.text) else "",
            Authors(e.authors),
            Squeeze(if e.summary.Holds? then Text.Strip(e.summary.text) else ""),
            Published(e.published, dateOf),
            ArxivId(e.id),
            PdfUrl(e.links),
            Categories(e.primary, e.terms),
            Doi(e.links))
  }

  /** A parsed paper names its source and links the abstract page of the identifier it carries. */
  lemma PaperFields(e: Entry, dateOf: DateOf)
    requires EntryRecord(e, dateOf) != []
    ensures Get(EntryRecord(e, dateOf), "source") == Some(JStr("arxiv"))
    ensures Get(EntryRecord(e, dateOf), "url") == Some(JStr(AbsPrefix + ArxivId(e.id)))
  {
    var title := if e.title.Holds? then Text.Strip(e.title.text) else "";
    var summary := Squeeze(if e.summary.Holds? then Text.Strip(e.summary.text) else "");
    var id := ArxivId(e.id);
    FieldsIdentity(JStr(title), JList(Strings(Authors(e.authors))), JStr(summary), Published(e.published, dateOf),
                   JStr(id), JStr(AbsPrefix + id), JStr(PdfUrl(e.links)),
                   JList(Strings(Categories(e.primary, e.terms))), JStr(Doi(e.links)), JStr("arxiv"));
  }

  /** The papers of a reply: the records of the entries that parse, in order. */
  function Papers(entries: seq<Entry>, dateOf: DateOf): (r: seq<Record>)
    ensures |r| <= |entries|
    ensures forall i :: 0 <= i < |r| ==> r[i] != []
  {
    if entries == [] then []
    else
      var init := Papers(entries[..|entries| - 1], dateOf);
      var p := EntryRecord(entries[|entries| - 1], dateOf);
      if p != [] then init + [p] else init
  }

  /** Every entry that parses gives a paper: none is lost besides the ones whose title or summary is empty. */
  lemma {:induction false} PapersCount(entries: seq<Entry>, dateOf: DateOf)
    requires forall k :: 0 <= k < |entries| ==> !entries[k].title.Blank? && !entries[k].summary.Blank?
    ensures |Papers(entries, dateOf)| == |entries|
  {
    if entries != [] {
      PapersCount(entries[..|entries| - 1], dateOf);
    }
  }

  /** The `for author_elem` loop. */
  method CollectAuthors(names: seq<Node>) returns (authors: seq<string>)
    ensures authors == Authors(names)
  {
    authors := [];
    var i := 0;
    while i < |names|
      invariant 0 <= i <= |names|
      invariant authors == Authors(names[..i])
    {
      AuthorsStep(names, i);
      var n := names[i];
      if Named(n) {
        authors := authors + [Text.Strip(n.text)];
      }
      i := i + 1;
    }
    assert names[..i] == names;
  }

  /** The primary category, then the `for category` loop with its membership test. */
  method CollectCategories(primary: string, terms: seq<string>) returns (categories: seq<string>)
    ensures categories == Categories(primary, terms)
  {
    categories := [];
    if primary != "" {
      categories := categories + [primary];
    }
    var i := 0;
    while i < |terms|
      invariant 0 <= i <= |terms|
      invariant categories == Categories(primary, terms[..i])
    {
      Text.SliceSnoc(terms, i);
      var t := terms[i];
      if t != "" && t !in categories {
        categories := categories + [t];
      }
      i := i + 1;
    }
    assert terms[..i] == terms;
  }

  /** A `for link` loop that stops at the first link with the given title. */
  method FindLink(links: seq<Link>, title: string) returns (found: Option<Link>)
    ensures found == FirstTitled(links, title)
  {
    found := None;
    var i := 0;
    while i < |links|
      invariant 0 <= i <= |links|
      invariant FirstTitled(links[i..], title) == FirstTitled(links, title)
    {
      if links[i].title == Some(title) {
        found := Some(links[i]);
        return;
      }
      assert links[i..][1..] == links[i + 1..];
      i := i + 1;
    }
  }

  /** `_parse_entry`. */
  method ParseEntry(e: Entry, dateOf: DateOf) returns (paper: Record)
    ensures paper == EntryRecord(e, dateOf)
  {
    if e.title.Blank? {
      return [];
    }
    var title := if e.title.Holds? then Text.Strip(e.title.text) else "";
    var authors := CollectAuthors(e.authors);
    if e.summary.Blank? {
      return [];
    }
    var summary := Squeeze(if e.summary.Holds? then Text.Strip(e.summary.text) else "");
    var id := ArxivId(e.id);
    var pdf := FindLink(e.links, "pdf");
    var categories := CollectCategories(e.primary, e.terms);
    var doiLink := FindLink(e.links, "doi");
    var doi := if doiLink.Some? then DoiSearch(doiLink.value.href.GetOr("")).GetOr("") else "";
    var pdfUrl := if pdf.Some? then pdf.value.href.GetOr("") else "";
    paper := Paper(title, authors, summary, Published(e.published, dateOf), id, pdfUrl, categories, doi);
  }

  /** One more entry extends the papers by its record, when that is non-empty. */
  lemma PapersStep(entries: seq<Entry>, i: int, dateOf: DateOf)
    requires 0 <= i < |entries|
    ensures var p := EntryRecord(entries[i], dateOf);
      Papers(entries[..i + 1], dateOf) == if p != [] then Papers(entries[..i], dateOf) + [p] else Papers(entries[..i], dateOf)
  {
    Text.SliceSnoc(entries, i);
    assert entries[..i + 1][..i] == entries[..i];
  }

  /** `_parse_arxiv_response`: the non-empty records, in entry order; `[]` when the XML does not parse. */
  method ParseResponse(reply: Option<seq<Entry>>, dateOf: DateOf) returns (papers: seq<Record>)
    ensures reply.None? ==> papers == []
    ensures reply.Some? ==> papers == Papers(reply.value, dateOf)
  {
    papers := [];
    if reply.None? {
      return;
    }
    var entries := reply.value;
    var i := 0;
    while i < |entries|
      invariant 0 <= i <= |entries|
      invariant papers == Papers(entries[..i], dateOf)
    {
      PapersStep(entries, i, dateOf);
      var paper := ParseEntry(entries[i], dateOf);
      if paper != [] {
        papers := papers + [paper];
      }
      i := i + 1;
    }
    assert entries[..i] == entries;
  }

  /** The parameter schema `initialize` registers for the "arxiv" context. */
  const Schema: Json := JObj([
    ("type", JStr("object")),
    ("properties", JObj([
      ("query", JObj([("type", JStr("string")), ("description", JStr("Search query for arXiv papers"))])),
      ("category", JObj([("type", JStr("string")), ("description", JStr("arXiv category (e.g., 'cs.AI', 'physics')")), ("default", JStr(""))])),
      ("sort_by", JObj([("type", JStr("string")),
                        ("enum", JList([JStr("relevance"), JStr("lastUpdatedDate"), JStr("submittedDate")])),
                        ("default", JStr("relevance"))]))])),
    ("required", JList([JStr("query")]))])

  /** The identity of the source's `_handle_mcp_query`. */
  const Handler: Mcp.HandlerId := "arxiv._handle_mcp_query"

  class ArxivSource {
    var cap: int
    var session: bool

    /** `max_results_per_query` from the configuration, 10 when absent; no session yet. */
    constructor (maxResultsPerQuery: Option<int>)
      ensures cap == maxResultsPerQuery.GetOr(DefaultCap) && !session
    {
      cap := maxResultsPerQuery.GetOr(DefaultCap);
      session := false;
    }

    /** `initialize`: a session is opened and the "arxiv" context registered with its schema and handler. */
    method Initialize(mcp: Mcp.McpClient)
      requires mcp.Valid()
      modifies this`session, mcp`contexts
      ensures session && mcp.Valid()
      ensures mcp.contexts == Mcp.Assign(old(mcp.contexts), "arxiv", Mcp.Entry("arxiv", Schema, Some(Handler)))
      ensures mcp.GetContextSchema("arxiv") == Mcp.Local(Some(Mcp.Entry("arxiv", Schema, Some(Handler))))
      ensures forall other :: other != "arxiv" ==> Mcp.Lookup(mcp.contexts, other) == Mcp.Lookup(old(mcp.contexts), other)
    {
      session := true;
      mcp.RegisterContext("arxiv", Schema, Some(Handler));
    }

    method Close()
      modifies this`session
      ensures !session
    {
      session := false;
    }

    /**
     * `query`: without a session, no papers and no request; otherwise the
     * papers of the reply to the capped request.
     */
    method Query(query: string, maxResults: int, category: string, sortBy: string,
                 respond: Request -> Option<seq<Entry>>, dateOf: DateOf)
      returns (papers: seq<Record>, sent: Option<Request>)
      ensures !session ==> papers == [] && sent.None?
      ensures session ==> sent == Some(BuildRequest(query, maxResults, category, sortBy, cap))
      ensures session ==> var reply := respond(sent.value);
        papers == if reply.None? then [] else Papers(reply.value, dateOf)
    {
      if !session {
        return [], None;
      }
      var max := Min(maxResults, cap);
      var search := query;
      if category != "" {
        search := "cat:" + category + " AND " + search;
      }
      var request := Request(search, max, SortParam(sortBy), "descending");
      sent := Some(request);
      papers := ParseResponse(respond(request), dateOf);
    }
  }
}
