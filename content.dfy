/**
 * The content extractor's string and table rules
 * (browser/content_extractor.py): `_clean_text`, the early returns of
 * `summarize_text`, the row and table filter of `extract_tables` and the
 * href filter of `extract_links`. HTML parsing is not modelled: tables
 * arrive as the raw cell texts of each row and links as the anchors'
 * attributes.
 */
module Content {
  import opened Values
  import Text

  /** No two consecutive occurrences of `c`. */
  predicate NoRepeat(s: string, c: char) {
    forall i :: 0 <= i < |s| - 1 ==> !(s[i] == c && s[i + 1] == c)
  }

  /** `NoRepeat` is the absence of the two-character substring. */
  lemma {:induction false} NoRepeatContains(s: string, c: char)
    ensures NoRepeat(s, c) <==> !Text.Contains(s, [c, c])
    decreases |s|
  {
    if s != [] {
      NoRepeatContains(s[1..], c);
      assert NoRepeat(s, c) <==> !(|s| >= 2 && s[0] == c && s[1] == c) && NoRepeat(s[1..], c) by {
        if NoRepeat(s, c) {
          forall i | 0 <= i < |s[1..]| - 1 ensures !(s[1..][i] == c && s[1..][i + 1] == c) {
            assert s[1..][i] == s[i + 1] && s[1..][i + 1] == s[i + 2];
          }
        }
        if !(|s| >= 2 && s[0] == c && s[1] == c) && NoRepeat(s[1..], c) {
          forall i | 0 <= i < |s| - 1 ensures !(s[i] == c && s[i + 1] == c) {
            if i > 0 {
              assert s[1..][i - 1] == s[i] && s[1..][i] == s[i + 1];
            }
          }
        }
      }
      assert Text.StartsWith(s, [c, c]) <==> |s| >= 2 && s[0] == c && s[1] == c by {
        if |s| >= 2 {
          assert s[..2] == [s[0], s[1]];
        }
      }
    }
  }

  lemma NoRepeatSlice(s: string, c: char, i: int, j: int)
    requires NoRepeat(s, c) && 0 <= i <= j <= |s|
    ensures NoRepeat(s[i..j], c)
  {
    forall k | 0 <= k < j - i - 1 ensures !(s[i..j][k] == c && s[i..j][k + 1] == c) {
      assert s[i..j][k] == s[i + k] && s[i..j][k + 1] == s[i + k + 1];
    }
  }

  /** Gluing two repeat-free strings leaves no repeat unless both meet at `c`. */
  lemma NoRepeatConcat(a: string, b: string, c: char)
    requires NoRepeat(a, c) && NoRepeat(b, c)
    requires !(a != [] && b != [] && a[|a| - 1] == c && b[0] == c)
    ensures NoRepeat(a + b, c)
  {
    var s := a + b;
    forall i | 0 <= i < |s| - 1 ensures !(s[i] == c && s[i + 1] == c) {
      if i + 1 < |a| {
        assert s[i] == a[i] && s[i + 1] == a[i + 1];
      } else if i >= |a| {
        assert s[i] == b[i - |a|] && s[i + 1] == b[i - |a| + 1];
      } else {
        assert s[i] == a[|a| - 1] && s[i + 1] == b[0];
      }
    }
  }

  /**
   * `re.sub(c{k+1,}, c * k, s)`: every maximal run of `c` longer than `k`
   * becomes exactly `k` copies. `run` counts the copies of `c` just emitted.
   */
  function CapRuns(s: string, c: char, k: nat, run: nat): (r: string)
    ensures |r| <= |s|
  {
    if s == [] then []
    else if s[0] == c then
      if run < k then [c] + CapRuns(s[1..], c, k, run + 1) else CapRuns(s[1..], c, k, run)
    else [s[0]] + CapRuns(s[1..], c, k, 0)
  }

  /** Capping runs at one copy leaves no two consecutive copies. */
  lemma {:induction false} CapOneNoRepeat(s: string, c: char, run: nat)
    requires run <= 1
    ensures NoRepeat(CapRuns(s, c, 1, run), c)
    ensures run == 1 ==> CapRuns(s, c, 1, run) == [] || CapRuns(s, c, 1, run)[0] != c
    decreases |s|
  {
    if s != [] {
      if s[0] == c {
        if run < 1 {
          CapOneNoRepeat(s[1..], c, 1);
          NoRepeatConcat([c], CapRuns(s[1..], c, 1, 1), c);
        } else {
          CapOneNoRepeat(s[1..], c, 1);
        }
      } else {
        CapOneNoRepeat(s[1..], c, 0);
        NoRepeatConcat([s[0]], CapRuns(s[1..], c, 1, 0), c);
      }
    }
  }

  /** A string without two consecutive copies of `c` has no run to cap. */
  lemma {:induction false} CapUnchanged(s: string, c: char, k: nat, run: nat)
    requires k >= 1 && NoRepeat(s, c)
    requires run < k || s == [] || s[0] != c
    ensures CapRuns(s, c, k, run) == s
    decreases |s|
  {
    if s != [] {
      NoRepeatSlice(s, c, 1, |s|);
      if s[0] == c {
        assert |s| == 1 || s[1] != c;
        CapUnchanged(s[1..], c, k, run + 1);
      } else {
        CapUnchanged(s[1..], c, k, 0);
      }
      assert [s[0]] + s[1..] == s;
    }
  }

  /** `[x.strip() for x in xs]`: each string stripped, in place. */
  function StripEach(xs: seq<string>): (r: seq<string>)
    ensures |r| == |xs|
    ensures forall i :: 0 <= i < |xs| ==> r[i] == Text.Strip(xs[i])
  {
    Text.Map(Text.Strip, xs)
  }

  /** `[line for line in lines if line]`. */
  function NonEmpty(lines: seq<string>): (r: seq<string>)
    ensures |r| <= |lines|
    ensures forall i :: 0 <= i < |r| ==> r[i] != [] && r[i] in lines
  {
    if lines == [] then []
    else
      var rest := NonEmpty(lines[1..]);
      assert forall i :: 0 <= i < |rest| ==> rest[i] in lines;
      if lines[0] == [] then rest else [lines[0]] + rest
  }

  /** The two line steps of `_clean_text`: strip every line, then drop the empty ones. */
  function CleanLines(pieces: seq<string>): (r: seq<string>)
    ensures |r| <= |pieces|
    ensures forall i :: 0 <= i < |r| ==> r[i] != []
  {
    NonEmpty(StripEach(pieces))
  }

  /** A line survives `NonEmpty` exactly when it was there and is not empty. */
  lemma {:induction false} NonEmptyMembers(lines: seq<string>)
    ensures forall x :: x in NonEmpty(lines) <==> x in lines && x != []
  {
    if lines != [] {
      NonEmptyMembers(lines[1..]);
      assert forall x :: x in lines <==> x == lines[0] || x in lines[1..];
    }
  }

  /** The cleaned lines are exactly the non-empty stripped pieces. */
  lemma CleanLinesMembers(pieces: seq<string>)
    ensures forall x :: x in CleanLines(pieces) <==> x != [] && exists i :: 0 <= i < |pieces| && x == Text.Strip(pieces[i])
  {
    var stripped := StripEach(pieces);
    NonEmptyMembers(stripped);
    forall x | x in stripped ensures exists i :: 0 <= i < |pieces| && x == Text.Strip(pieces[i]) {
      var i :| 0 <= i < |stripped| && stripped[i] == x;
      assert x == Text.Strip(pieces[i]);
    }
    forall x | exists i :: 0 <= i < |pieces| && x == Text.Strip(pieces[i]) ensures x in stripped {
      var i :| 0 <= i < |pieces| && x == Text.Strip(pieces[i]);
      assert stripped[i] == x;
    }
  }

  /**
   * Dropping blank lines keeps the order of the others: it distributes over
   * concatenation, and one line is kept exactly when it is non-empty.
   */
  lemma {:induction false} NonEmptyAppend(a: seq<string>, b: seq<string>)
    ensures NonEmpty(a + b) == NonEmpty(a) + NonEmpty(b)
    ensures forall x :: NonEmpty([x]) == if x == [] then [] else [x]
  {
    if a != [] {
      assert (a + b)[1..] == a[1..] + b;
      NonEmptyAppend(a[1..], b);
    } else {
      assert a + b == b;
    }
    forall x ensures NonEmpty([x]) == if x == [] then [] else [x] {
      assert [x][1..] == [];
    }
  }

  /** The cleaned lines of two blocks are the cleaned lines of each, in order. */
  lemma CleanLinesAppend(a: seq<string>, b: seq<string>)
    ensures CleanLines(a + b) == CleanLines(a) + CleanLines(b)
  {
    StripEachAppend(a, b);
    NonEmptyAppend(StripEach(a), StripEach(b));
  }

  lemma StripEachAppend(a: seq<string>, b: seq<string>)
    ensures StripEach(a + b) == StripEach(a) + StripEach(b)
  {
    Text.MapAppend(Text.Strip, a, b);
  }

  /** `_clean_text`: newline runs capped at two, space runs at one, lines stripped, blank lines dropped. */
  function CleanText(text: string): string {
    Join(CleanLines(Text.Split(CapRuns(CapRuns(text, '\n', 2, 0), ' ', 1, 0), '\n')), '\n')
  }

  function Join(parts: seq<string>, sep: char): string {
    Text.Join(parts, sep)
  }

  /** A line that is already clean. */
  predicate CleanLine(line: string) {
    line != [] && Text.Strip(line) == line && !Text.HasChar(line, '\n') && NoRepeat(line, ' ')
  }

  /** A piece without newlines or double spaces strips to a clean line, unless it strips to nothing. */
  lemma CleanPiece(p: string)
    requires !Text.HasChar(p, '\n') && NoRepeat(p, ' ') && Text.Strip(p) != []
    ensures CleanLine(Text.Strip(p))
  {
    var line := Text.Strip(p);
    Text.StripIsSlice(p);
    var a, b :| 0 <= a <= b <= |p| && line == p[a..b];
    Text.NoCharSlice(p, '\n', a, b);
    NoRepeatSlice(p, ' ', a, b);
    Text.StripUnchanged(line);
  }

  /** Every kept line is stripped and keeps what its piece had: no newline and no double space. */
  lemma CleanLinesClean(pieces: seq<string>)
    requires forall i :: 0 <= i < |pieces| ==> !Text.HasChar(pieces[i], '\n') && NoRepeat(pieces[i], ' ')
    ensures forall i :: 0 <= i < |CleanLines(pieces)| ==> CleanLine(CleanLines(pieces)[i])
  {
    var stripped := StripEach(pieces);
    var r := CleanLines(pieces);
    forall i | 0 <= i < |r| ensures CleanLine(r[i]) {
      assert r[i] in stripped;
      var j :| 0 <= j < |stripped| && stripped[j] == r[i];
      CleanPiece(pieces[j]);
    }
  }

  /** Filtering lines that are all non-empty keeps them all. */
  lemma {:induction false} NonEmptyFixed(lines: seq<string>)
    requires forall i :: 0 <= i < |lines| ==> lines[i] != []
    ensures NonEmpty(lines) == lines
  {
    if lines != [] {
      assert forall i :: 1 <= i < |lines| ==> lines[1..][i - 1] == lines[i];
      NonEmptyFixed(lines[1..]);
      assert [lines[0]] + lines[1..] == lines;
    }
  }

  /** Clean lines are kept as they are. */
  lemma CleanLinesFixed(lines: seq<string>)
    requires forall i :: 0 <= i < |lines| ==> lines[i] != [] && Text.Strip(lines[i]) == lines[i]
    ensures CleanLines(lines) == lines
  {
    assert StripEach(lines) == lines;
    NonEmptyFixed(lines);
  }

  /** Each piece of a split string inherits the absence of a repeat. */
  lemma {:induction false} SplitNoRepeat(s: string, sep: char, c: char, i: int)
    requires NoRepeat(s, c) && 0 <= i < |Text.Split(s, sep)|
    ensures NoRepeat(Text.Split(s, sep)[i], c)
    decreases |s|
  {
    if s != [] {
      var rest := Text.Split(s[1..], sep);
      NoRepeatSlice(s, c, 1, |s|);
      SplitHeadPrefix(s[1..], sep);
      if s[0] == sep {
        if i > 0 {
          SplitNoRepeat(s[1..], sep, c, i - 1);
        }
      } else {
        var head := [s[0]] + rest[0];
        assert head == s[..|head|];
        if i == 0 {
          NoRepeatSlice(s, c, 0, |head|);
        } else {
          SplitNoRepeat(s[1..], sep, c, i);
        }
      }
    }
  }

  /** The first piece of a split is a prefix of the string. */
  lemma {:induction false} SplitHeadPrefix(s: string, sep: char)
    ensures |Text.Split(s, sep)[0]| <= |s| && Text.Split(s, sep)[0] == s[..|Text.Split(s, sep)[0]|]
    decreases |s|
  {
    if s != [] {
      SplitHeadPrefix(s[1..], sep);
      var rest := Text.Split(s[1..], sep);
      if s[0] != sep {
        assert Text.Split(s, sep)[0] == [s[0]] + rest[0];
        assert s[..1 + |rest[0]|] == [s[0]] + s[1..][..|rest[0]|];
      }
    }
  }

  /** Joining clean lines with newlines gives neither a blank line nor a double space. */
  lemma {:induction false} JoinClean(lines: seq<string>)
    requires forall i :: 0 <= i < |lines| ==> CleanLine(lines[i])
    ensures NoRepeat(Join(lines, '\n'), '\n') && NoRepeat(Join(lines, '\n'), ' ')
    ensures lines != [] && lines[0] != [] ==> Join(lines, '\n') != [] && Join(lines, '\n')[0] == lines[0][0]
  {
    if |lines| == 1 {
      assert Join(lines, '\n') == lines[0];
      NoCharRepeat(lines[0], '\n');
    } else if |lines| > 1 {
      var tail := lines[1..];
      assert forall i :: 0 <= i < |tail| ==> tail[i] == lines[i + 1];
      JoinClean(tail);
      var a, b := lines[0], Join(tail, '\n');
      assert Join(lines, '\n') == (a + ['\n']) + b;
      NoCharRepeat(a, '\n');
      assert a[|a| - 1] != '\n';
      NoRepeatConcat(a, ['\n'], '\n');
      NoRepeatConcat(a, ['\n'], ' ');
      NoRepeatConcat(a + ['\n'], b, '\n');
      NoRepeatConcat(a + ['\n'], b, ' ');
    }
  }

  lemma NoCharRepeat(s: string, c: char)
    requires !Text.HasChar(s, c)
    ensures NoRepeat(s, c)
    ensures s != [] ==> s[0] != c && s[|s| - 1] != c
  {
  }

  /** The clean lines `_clean_text` joins. */
  lemma CleanTextLines(text: string)
    ensures var lines := CleanLines(Text.Split(CapRuns(CapRuns(text, '\n', 2, 0), ' ', 1, 0), '\n'));
      (forall i :: 0 <= i < |lines| ==> CleanLine(lines[i])) && CleanText(text) == Join(lines, '\n')
  {
    var capped := CapRuns(CapRuns(text, '\n', 2, 0), ' ', 1, 0);
    CapOneNoRepeat(CapRuns(text, '\n', 2, 0), ' ', 0);
    var pieces := Text.Split(capped, '\n');
    forall i | 0 <= i < |pieces| ensures !Text.HasChar(pieces[i], '\n') && NoRepeat(pieces[i], ' ') {
      SplitNoRepeat(capped, '\n', ' ', i);
    }
    CleanLinesClean(pieces);
  }

  /** Every line of the cleaned text is non-empty and stripped (an empty result has no lines left). */
  lemma CleanTextLinesStripped(text: string)
    ensures var r := CleanText(text);
      r == [] || forall i :: 0 <= i < |Text.Split(r, '\n')| ==> Text.Split(r, '\n')[i] != [] && Text.Strip(Text.Split(r, '\n')[i]) == Text.Split(r, '\n')[i]
  {
    CleanTextLines(text);
    var lines := CleanLines(Text.Split(CapRuns(CapRuns(text, '\n', 2, 0), ' ', 1, 0), '\n'));
    if lines != [] {
      Text.SplitJoin(lines, '\n');
    }
  }

  /** The cleaned text holds no blank line ("\n\n") and no double space. */
  lemma CleanTextNoRepeats(text: string)
    ensures !Text.Contains(CleanText(text), "\n\n") && !Text.Contains(CleanText(text), "  ")
  {
    CleanTextLines(text);
    var lines := CleanLines(Text.Split(CapRuns(CapRuns(text, '\n', 2, 0), ' ', 1, 0), '\n'));
    JoinClean(lines);
    NoRepeatContains(CleanText(text), '\n');
    NoRepeatContains(CleanText(text), ' ');
  }

  /** Cleaning twice is cleaning once. */
  lemma CleanTextIdempotent(text: string)
    ensures CleanText(CleanText(text)) == CleanText(text)
  {
    CleanTextLines(text);
    var lines := CleanLines(Text.Split(CapRuns(CapRuns(text, '\n', 2, 0), ' ', 1, 0), '\n'));
    var r := CleanText(text);
    JoinClean(lines);
    CapUnchanged(r, '\n', 2, 0);
    CapUnchanged(r, ' ', 1, 0);
    if lines == [] {
      assert r == [];
    } else {
      Text.SplitJoin(lines, '\n');
      CleanLinesFixed(lines);
    }
  }

  /** Characters that end a sentence for `summarize_text`. */
  predicate Terminal(c: char) {
    c == '.' || c == '!' || c == '?'
  }

  /** The whitespace runs `re.split(r'(?<=[.!?])\s+', text)` splits at: one per whitespace character right after a terminal. */
  function Breaks(text: string): (r: nat)
    ensures r <= |text|
  {
    if |text| < 2 then 0
    else Breaks(text[..|text| - 1]) + (if Text.IsSpace(text[|text| - 1]) && Terminal(text[|text| - 2]) then 1 else 0)
  }

  /** The number of pieces the sentence split yields. */
  function SentenceCount(text: string): (r: nat)
    ensures r >= 1
  {
    Breaks(text) + 1
  }

  /** Text without a sentence end followed by whitespace is one sentence. */
  lemma {:induction false} OneSentence(text: string)
    requires forall i :: 1 <= i < |text| ==> !(Text.IsSpace(text[i]) && Terminal(text[i - 1]))
    ensures SentenceCount(text) == 1
  {
    if |text| >= 2 {
      var front := text[..|text| - 1];
      assert forall i :: 0 <= i < |front| ==> front[i] == text[i];
      OneSentence(front);
    }
  }

  /**
   * `summarize_text`: "" for empty text or a non-positive limit, the text
   * itself when it has no more sentences than the limit, and otherwise the
   * scored extract, which is a parameter here.
   */
  function SummarizeText(text: string, maxSentences: int, scored: string): (r: string)
    ensures text == "" || maxSentences <= 0 ==> r == ""
    ensures text != "" && 0 < maxSentences && SentenceCount(text) <= maxSentences ==> r == text
  {
    if text == "" || maxSentences <= 0 then ""
    else if SentenceCount(text) <= maxSentences then text
    else scored
  }

  /** With a positive limit, a single sentence comes back unchanged. */
  lemma SingleSentenceKept(text: string, maxSentences: int, scored: string)
    requires maxSentences >= 1
    requires forall i :: 1 <= i < |text| ==> !(Text.IsSpace(text[i]) && Terminal(text[i - 1]))
    ensures SummarizeText(text, maxSentences, scored) == text
  {
    OneSentence(text);
  }

  /** The rows of one table, without the rows that have no cells. */
  function TableRows(rows: seq<seq<string>>): (r: seq<seq<string>>)
    ensures |r| <= |rows|
    ensures forall i :: 0 <= i < |r| ==> r[i] != []
  {
    if rows == [] then []
    else
      var rest := TableRows(rows[1..]);
      if rows[0] == [] then rest
      else
        var row := StripEach(rows[0]);
        assert row != [];
        [row] + rest
  }

  /** `extract_tables`: each table's non-empty rows, and only the tables that keep a row. */
  function Tables(tables: seq<seq<seq<string>>>): (r: seq<seq<seq<string>>>)
    ensures |r| <= |tables|
    ensures forall t :: 0 <= t < |r| ==> r[t] != [] && forall i :: 0 <= i < |r[t]| ==> r[t][i] != []
  {
    if tables == [] then []
    else
      var rows := TableRows(tables[0]);
      if rows == [] then Tables(tables[1..]) else [rows] + Tables(tables[1..])
  }

  /** A table loses only its empty rows: it drops out exactly when none of its rows has a cell. */
  lemma {:induction false} TableRowsEmpty(rows: seq<seq<string>>)
    ensures TableRows(rows) == [] <==> forall i :: 0 <= i < |rows| ==> rows[i] == []
  {
    if rows != [] {
      TableRowsEmpty(rows[1..]);
      assert forall i :: 1 <= i < |rows| ==> rows[1..][i - 1] == rows[i];
    }
  }

  /** Some row of the table has a cell. */
  predicate HasRow(rows: seq<seq<string>>) {
    exists i :: 0 <= i < |rows| && rows[i] != []
  }

  /** Every table with a non-empty row survives, so none is lost to the filter. */
  lemma {:induction false} TablesKept(tables: seq<seq<seq<string>>>)
    requires forall t :: 0 <= t < |tables| ==> HasRow(tables[t])
    ensures |Tables(tables)| == |tables|
  {
    if tables != [] {
      TableRowsEmpty(tables[0]);
      assert forall t :: 1 <= t < |tables| ==> tables[1..][t - 1] == tables[t];
      TablesKept(tables[1..]);
    }
  }

  /** An anchor's `href`, its text and its `title` attribute. */
  datatype Anchor = Anchor(href: string, text: string, title: string)

  /** The hrefs `extract_links` skips: empty ones and in-page, script and mail links. */
  predicate SkipHref(href: string) {
    href == "" || Text.StartsWith(href, "javascript:") || Text.StartsWith(href, "mailto:") || Text.StartsWith(href, "#")
  }

  /** The link url: a relative href is resolved against a non-empty base with `urljoin`. */
  function LinkUrl(href: string, baseUrl: string, urljoin: (string, string) -> string): (r: string)
    ensures baseUrl == "" || Text.StartsWith(href, "http://") || Text.StartsWith(href, "https://") ==> r == href
  {
    if baseUrl != "" && !Text.StartsWith(href, "http://") && !Text.StartsWith(href, "https://") then urljoin(baseUrl, href)
    else href
  }

  function LinkRecord(a: Anchor, baseUrl: string, urljoin: (string, string) -> string): Record {
    [("url", JStr(LinkUrl(a.href, baseUrl, urljoin))), ("text", JStr(Text.Strip(a.text))), ("title", JStr(a.title))]
  }

  /** `extract_links`: one record per anchor whose href is not skipped, in document order. */
  function Links(anchors: seq<Anchor>, baseUrl: string, urljoin: (string, string) -> string): (r: seq<Record>)
    ensures |r| <= |anchors|
  {
    if anchors == [] then []
    else if SkipHref(anchors[0].href) then Links(anchors[1..], baseUrl, urljoin)
    else [LinkRecord(anchors[0], baseUrl, urljoin)] + Links(anchors[1..], baseUrl, urljoin)
  }

  /** `rec` is what anchor `a` contributes to `extract_links`. */
  predicate FromAnchor(a: Anchor, baseUrl: string, urljoin: (string, string) -> string, rec: Record) {
    !SkipHref(a.href) && rec == LinkRecord(a, baseUrl, urljoin)
  }

  /** A record is produced exactly for the anchors whose href is not skipped. */
  lemma {:induction false} LinksFromAnchors(anchors: seq<Anchor>, baseUrl: string, urljoin: (string, string) -> string, rec: Record)
    ensures rec in Links(anchors, baseUrl, urljoin) <==>
      exists k :: 0 <= k < |anchors| && FromAnchor(anchors[k], baseUrl, urljoin, rec)
  {
    if anchors != [] {
      var tail := anchors[1..];
      LinksFromAnchors(tail, baseUrl, urljoin, rec);
      var links := Links(anchors, baseUrl, urljoin);
      var rest := Links(tail, baseUrl, urljoin);
      if rec in links {
        if rec in rest {
          var k :| 0 <= k < |tail| && FromAnchor(tail[k], baseUrl, urljoin, rec);
          assert tail[k] == anchors[k + 1];
        } else {
          assert FromAnchor(anchors[0], baseUrl, urljoin, rec);
        }
      }
      if exists k :: 0 <= k < |anchors| && FromAnchor(anchors[k], baseUrl, urljoin, rec) {
        var k :| 0 <= k < |anchors| && FromAnchor(anchors[k], baseUrl, urljoin, rec);
        if k > 0 {
          assert tail[k - 1] == anchors[k];
          assert rec in rest;
        }
      }
    }
  }

  /** Without a base url, no produced link is empty or a script, mail or in-page link. */
  lemma LinksNotSkipped(anchors: seq<Anchor>, urljoin: (string, string) -> string, i: int)
    requires 0 <= i < |Links(anchors, "", urljoin)|
    ensures var rec := Links(anchors, "", urljoin)[i];
      |rec| == 3 && rec[0].1.JStr? && !SkipHref(rec[0].1.s)
  {
    var rec := Links(anchors, "", urljoin)[i];
    LinksFromAnchors(anchors, "", urljoin, rec);
  }
}
