/**
 * URL components as `urllib.parse.urlsplit` produces them and
 * `urlunsplit` recombines them: scheme, authority (`netloc`), path, query
 * and fragment, the generic syntax of section 3 of RFC 3986 with Python's
 * rules for when a scheme is recognised. The `;params` split that
 * `urlparse` adds for some schemes is not modelled: params stay in the path.
 */
module Urls {
  import opened Text

  datatype Url = Url(scheme: string, netloc: string, path: string, query: string, fragment: string)

  predicate IsAlpha(c: char) {
    ('a' <= c <= 'z') || ('A' <= c <= 'Z')
  }

  predicate SchemeChar(c: char) {
    IsAlnum(c) || c == '+' || c == '-' || c == '.'
  }

  /** A letter followed by letters, digits, `+`, `-` or `.`. */
  predicate ValidScheme(s: string) {
    |s| > 0 && IsAlpha(s[0]) && forall i :: 0 <= i < |s| ==> SchemeChar(s[i])
  }

  /** The characters that end an authority. */
  predicate Delim(c: char) {
    c == '/' || c == '?' || c == '#'
  }

  /** The index of the first `/`, `?` or `#`, or the length. */
  function FirstDelim(s: string): (r: nat)
    ensures r <= |s|
    ensures forall k :: 0 <= k < r ==> !Delim(s[k])
    ensures r < |s| ==> Delim(s[r])
  {
    if s == [] || Delim(s[0]) then 0 else 1 + FirstDelim(s[1..])
  }

  /** `s.split(c, 1)` as a pair, with "" after when `c` does not occur. */
  function SplitOnce(s: string, c: char): (r: (string, string))
    ensures !HasChar(r.0, c)
    ensures |r.0| <= |s| && r.0 == s[..|r.0|]
    ensures HasChar(s, c) ==> s == r.0 + [c] + r.1 && r.1 == s[|r.0| + 1..]
    ensures !HasChar(s, c) ==> r == (s, "")
  {
    var i := IndexOf(s, c);
    if i < 0 then (s, "")
    else
      assert s == s[..i] + [c] + s[i + 1..];
      (s[..i], s[i + 1..])
  }

  /** The scheme, lower-cased, when one precedes the first `:`, and the rest. */
  function SplitScheme(s: string): (string, string) {
    var i := IndexOf(s, ':');
    if i > 0 && ValidScheme(s[..i]) then (Lower(s[..i]), s[i + 1..]) else ("", s)
  }

  /** The authority after a leading `//`, up to the first delimiter, and the rest. */
  function SplitAuthority(rest: string): (string, string) {
    if StartsWith(rest, "//") then
      var d := FirstDelim(rest[2..]);
      (rest[2..][..d], rest[2..][d..])
    else ("", rest)
  }

  /** `urlsplit(s)`. */
  function Parse(s: string): Url {
    var (scheme, rest) := SplitScheme(s);
    var (netloc, tail) := SplitAuthority(rest);
    var (beforeFragment, fragment) := SplitOnce(tail, '#');
    var (path, query) := SplitOnce(beforeFragment, '?');
    Url(scheme, netloc, path, query, fragment)
  }

  /** The schemes `urlunsplit` writes an empty authority `//` for. */
  predicate UsesNetloc(scheme: string) {
    scheme in ["", "ftp", "http", "gopher", "nntp", "telnet", "imap", "wais", "file", "mms",
               "https", "shttp", "snews", "prospero", "rtsp", "rtsps", "rtspu", "rsync",
               "svn", "svn+ssh", "sftp", "nfs", "git", "git+ssh", "ws", "wss", "itms-services"]
  }

  /** `urlunsplit(u)`: empty components are omitted with their delimiters. */
  function Unparse(u: Url): string {
    var hier :=
      if u.netloc != "" then
        "//" + u.netloc + (if u.path != "" && u.path[0] != '/' then "/" + u.path else u.path)
      else if StartsWith(u.path, "//") then "//" + u.path
      else if u.scheme != "" && UsesNetloc(u.scheme) && (u.path == "" || u.path[0] == '/') then "//" + u.path
      else u.path;
    (if u.scheme != "" then u.scheme + ":" else "") + hier
      + (if u.query != "" then "?" + u.query else "")
      + (if u.fragment != "" then "#" + u.fragment else "")
  }

  /** No two consecutive slashes. */
  predicate NoDoubleSlash(s: string) {
    forall i :: 0 <= i < |s| - 1 ==> !(s[i] == '/' && s[i + 1] == '/')
  }

  /**
   * Components that `Parse` gives back unchanged after `Unparse`: a
   * lower-case scheme, an authority without delimiters, a path without
   * `?`, `#` or `//` that starts with `/` under an authority, a query
   * without `#`, and no fragment.
   */
  predicate Canonical(u: Url) {
    && ValidScheme(u.scheme) && Lower(u.scheme) == u.scheme
    && (forall k :: 0 <= k < |u.netloc| ==> !Delim(u.netloc[k]))
    && !HasChar(u.path, '?') && !HasChar(u.path, '#') && NoDoubleSlash(u.path)
    && (u.netloc != "" && u.path != "" ==> u.path[0] == '/')
    && !HasChar(u.query, '#')
    && u.fragment == ""
  }

  // ---------------------------------------------------------------------------
  // Parsing what `Unparse` wrote

  /** A valid scheme followed by `:` is recognised and kept. */
  lemma SchemeRoundTrip(scheme: string, rest: string)
    requires ValidScheme(scheme) && Lower(scheme) == scheme
    ensures SplitScheme(scheme + ":" + rest) == (scheme, rest)
  {
    var s := scheme + ":" + rest;
    assert !HasChar(scheme, ':');
    assert s[..|scheme|] == scheme;
    IndexOfAt(s, ':', |scheme|);
    assert s[|scheme| + 1..] == rest;
  }

  /** `urlparse("https://" + s)` always has the scheme "https". */
  lemma HttpsPrefix(s: string)
    ensures Parse("https://" + s).scheme == "https"
    ensures SplitScheme("https://" + s) == ("https", "//" + s)
  {
    var t := "https://" + s;
    assert t == "https" + ":" + ("//" + s);
    assert Lower("https") == "https";
    SchemeRoundTrip("https", "//" + s);
  }

  /** A path without `?`/`#` followed by an optional query splits back into the two. */
  lemma PathQueryRoundTrip(path: string, query: string)
    requires !HasChar(path, '?') && !HasChar(path, '#') && !HasChar(query, '#')
    ensures var t := path + (if query != "" then "?" + query else "");
      SplitOnce(t, '#') == (t, "") && SplitOnce(t, '?') == (path, query)
  {
    var q := if query != "" then "?" + query else "";
    var t := path + q;
    assert !HasChar(q, '#') by {
      if query != "" {
        NoCharConcat("?", query, '#');
      }
    }
    NoCharConcat(path, q, '#');
    if query != "" {
      assert t == path + ['?'] + query;
      assert t[..|path|] == path;
      IndexOfAt(t, '?', |path|);
      assert t[|path| + 1..] == query;
    } else {
      assert t == path;
    }
  }

  /** The text that follows `scheme:`, from the authority on. */
  function Hier(u: Url): string {
    if u.netloc != "" then "//" + u.netloc + u.path
    else if u.scheme != "" && UsesNetloc(u.scheme) && (u.path == "" || u.path[0] == '/') then "//" + u.path
    else u.path
  }

  /** The authority is read back from what follows `scheme:`. */
  lemma AuthorityRoundTrip(u: Url, q: string)
    requires forall k :: 0 <= k < |u.netloc| ==> !Delim(u.netloc[k])
    requires NoDoubleSlash(u.path) && (u.netloc != "" && u.path != "" ==> u.path[0] == '/')
    requires q == "" || q[0] == '?'
    ensures SplitAuthority(Hier(u) + q) == (u.netloc, u.path + q)
  {
    var after := u.path + q;
    assert after == "" || Delim(after[0]) || u.netloc == "";
    if u.netloc != "" {
      Text.ConcatAssoc("//", u.netloc, u.path);
      Text.ConcatAssoc("//", u.netloc + u.path, q);
      Text.ConcatAssoc(u.netloc, u.path, q);
      WithAuthority(u.netloc, after);
    } else if Hier(u) == u.path {
      NoAuthority(u.path, q);
    } else {
      assert Hier(u) == "//" + u.path && (u.path == "" || u.path[0] == '/');
      Text.ConcatAssoc("//", u.path, q);
      assert "" + after == after;
      WithAuthority("", after);
    }
  }

  lemma WithAuthority(netloc: string, after: string)
    requires forall k :: 0 <= k < |netloc| ==> !Delim(netloc[k])
    requires after == "" || Delim(after[0])
    ensures SplitAuthority("//" + (netloc + after)) == (netloc, after)
  {
    var rest := "//" + (netloc + after);
    assert rest[..2] == "//";
    assert rest[2..] == netloc + after;
    NetlocEnds(netloc, after);
  }

  lemma NoAuthority(path: string, q: string)
    requires NoDoubleSlash(path)
    requires q == "" || q[0] == '?'
    ensures SplitAuthority(path + q) == ("", path + q)
  {
    NotDoubleSlashStart(path);
    var rest := path + q;
    assert |rest| >= 2 ==> rest[..2] == [rest[0], rest[1]];
    assert |path| >= 2 ==> path[..2] == [path[0], path[1]] && rest[0] == path[0] && rest[1] == path[1];
    assert |path| == 1 && |rest| >= 2 ==> rest[1] == q[0];
    assert |path| == 0 && |rest| >= 2 ==> rest[0] == q[0];
  }

  lemma NotDoubleSlashStart(p: string)
    requires NoDoubleSlash(p)
    ensures !StartsWith(p, "//")
  {
    assert |p| >= 2 ==> p[..2] == [p[0], p[1]];
  }

  /** An authority without delimiters ends where the path or query delimiter begins. */
  lemma NetlocEnds(netloc: string, after: string)
    requires forall k :: 0 <= k < |netloc| ==> !Delim(netloc[k])
    requires after == "" || Delim(after[0])
    ensures FirstDelim(netloc + after) == |netloc|
    ensures (netloc + after)[..|netloc|] == netloc && (netloc + after)[|netloc|..] == after
    decreases |netloc|
  {
    if netloc != "" {
      assert (netloc + after)[1..] == netloc[1..] + after;
      NetlocEnds(netloc[1..], after);
    }
  }

  /** Canonical components survive unparsing and parsing. */
  lemma RoundTrip(u: Url)
    requires Canonical(u)
    ensures Parse(Unparse(u)) == u
  {
    var q := if u.query != "" then "?" + u.query else "";
    assert Unparse(u) == u.scheme + ":" + (Hier(u) + q) by {
      NotDoubleSlashStart(u.path);
    }
    SchemeRoundTrip(u.scheme, Hier(u) + q);
    assert q == "" || q[0] == '?';
    AuthorityRoundTrip(u, q);
    PathQueryRoundTrip(u.path, u.query);
  }

  // ---------------------------------------------------------------------------
  // What `Parse` produces

  /** Lower-casing a valid scheme keeps it valid, and lower-casing twice changes nothing more. */
  lemma LowerScheme(s: string)
    requires ValidScheme(s)
    ensures ValidScheme(Lower(s)) && Lower(Lower(s)) == Lower(s)
  {
  }

  lemma SchemeShape(s: string)
    ensures var scheme := SplitScheme(s).0;
      scheme == "" || (ValidScheme(scheme) && Lower(scheme) == scheme)
  {
    var i := IndexOf(s, ':');
    if i > 0 && ValidScheme(s[..i]) {
      LowerScheme(s[..i]);
    }
  }

  lemma AuthorityShape(rest: string)
    ensures var (netloc, tail) := SplitAuthority(rest);
      && (forall k :: 0 <= k < |netloc| ==> !Delim(netloc[k]))
      && (netloc != "" ==> tail == "" || Delim(tail[0]))
  {
  }

  /** Path and query as split off what follows the authority. */
  lemma TailShape(tail: string)
    ensures var (beforeFragment, _) := SplitOnce(tail, '#');
      var (path, query) := SplitOnce(beforeFragment, '?');
      && !HasChar(path, '?') && !HasChar(path, '#') && !HasChar(query, '#')
      && (path != "" ==> path[0] == tail[0])
  {
    var (beforeFragment, _) := SplitOnce(tail, '#');
    var (path, query) := SplitOnce(beforeFragment, '?');
    NoCharSlice(beforeFragment, '#', 0, |path|);
    if HasChar(beforeFragment, '?') {
      NoCharSlice(beforeFragment, '#', |path| + 1, |beforeFragment|);
    }
  }

  /**
   * Every parse has a lower-case valid scheme or none, an authority without
   * delimiters, a path without `?` or `#` that starts with `/` under an
   * authority, and a query without `#`.
   */
  lemma ParseShape(s: string)
    ensures var u := Parse(s);
      && (u.scheme == "" || (ValidScheme(u.scheme) && Lower(u.scheme) == u.scheme))
      && (forall k :: 0 <= k < |u.netloc| ==> !Delim(u.netloc[k]))
      && !HasChar(u.path, '?') && !HasChar(u.path, '#')
      && (u.netloc != "" && u.path != "" ==> u.path[0] == '/')
      && !HasChar(u.query, '#')
  {
    var (scheme, rest) := SplitScheme(s);
    SchemeShape(s);
    var (netloc, tail) := SplitAuthority(rest);
    AuthorityShape(rest);
    TailShape(tail);
  }

  /** The characters `urllib.parse.quote(s, safe)` leaves as they are: letters, digits, "_.-~" and those in `safe`. */
  predicate QuoteSafe(c: char, safe: string) {
    ('a' <= c <= 'z') || ('A' <= c <= 'Z') || ('0' <= c <= '9') || c == '_' || c == '.' || c == '-' || c == '~' || HasChar(safe, c)
  }

  /** The UTF-8 bytes of one character. */
  function Utf8(c: char): (r: seq<int>)
    ensures 1 <= |r| <= 4 && forall k :: 0 <= k < |r| ==> 0 <= r[k] < 256
  {
    var n := c as int;
    if n < 0x80 then [n]
    else if n < 0x800 then [0xC0 + n / 64, 0x80 + n % 64]
    else if n < 0x10000 then [0xE0 + n / 4096, 0x80 + (n / 64) % 64, 0x80 + n % 64]
    else [0xF0 + n / 262144, 0x80 + (n / 4096) % 64, 0x80 + (n / 64) % 64, 0x80 + n % 64]
  }

  function HexDigit(d: int): char
    requires 0 <= d < 16
  {
    "0123456789ABCDEF"[d]
  }

  /** "%XX" for each byte. */
  function Escapes(bytes: seq<int>): (r: string)
    requires forall k :: 0 <= k < |bytes| ==> 0 <= bytes[k] < 256
    ensures |r| == 3 * |bytes|
    ensures forall k :: 0 <= k < |r| ==> r[k] == '%' || ('0' <= r[k] <= '9') || ('A' <= r[k] <= 'F')
  {
    if bytes == [] then ""
    else ['%', HexDigit(bytes[0] / 16), HexDigit(bytes[0] % 16)] + Escapes(bytes[1..])
  }

  /** `urllib.parse.quote(s, safe)`: every unsafe character becomes the percent escapes of its UTF-8 bytes. */
  function Quote(s: string, safe: string): (r: string)
    ensures |r| >= |s|
    ensures forall k :: 0 <= k < |r| ==> QuoteSafe(r[k], safe) || r[k] == '%' || ('A' <= r[k] <= 'F')
  {
    if s == [] then ""
    else (if QuoteSafe(s[0], safe) then [s[0]] else Escapes(Utf8(s[0]))) + Quote(s[1..], safe)
  }

  /** A string of safe characters is quoted as itself. */
  lemma {:induction false} QuoteSafeUnchanged(s: string, safe: string)
    requires forall k :: 0 <= k < |s| ==> QuoteSafe(s[k], safe)
    ensures Quote(s, safe) == s
  {
    if s != [] {
      QuoteSafeUnchanged(s[1..], safe);
    }
  }

  /** Quoting works character by character: it distributes over concatenation. */
  lemma {:induction false} QuoteConcat(a: string, b: string, safe: string)
    ensures Quote(a + b, safe) == Quote(a, safe) + Quote(b, safe)
  {
    if a != [] {
      assert (a + b)[0] == a[0] && (a + b)[1..] == a[1..] + b;
      QuoteConcat(a[1..], b, safe);
    } else {
      assert a + b == b;
    }
  }

  /** Byte k of the input is escaped at position 3k as "%" and its two upper-case hex digits. */
  lemma {:induction false} EscapesAt(bytes: seq<int>, k: int)
    requires forall j :: 0 <= j < |bytes| ==> 0 <= bytes[j] < 256
    requires 0 <= k < |bytes|
    ensures var e := Escapes(bytes);
      e[3 * k] == '%' && e[3 * k + 1] == HexDigit(bytes[k] / 16) && e[3 * k + 2] == HexDigit(bytes[k] % 16)
  {
    assert bytes[..k] + bytes[k..] == bytes;
    EscapesAppend(bytes[..k], bytes[k..]);
    var front := Escapes(bytes[..k]);
    var e := Escapes(bytes[k..]);
    assert e == ['%', HexDigit(bytes[k] / 16), HexDigit(bytes[k] % 16)] + Escapes(bytes[k + 1..]) by {
      assert bytes[k..][0] == bytes[k] && bytes[k..][1..] == bytes[k + 1..];
    }
    assert |front| == 3 * k;
  }

  /** Escaping works byte by byte: it distributes over concatenation. */
  lemma {:induction false} EscapesAppend(a: seq<int>, b: seq<int>)
    requires forall j :: 0 <= j < |a| ==> 0 <= a[j] < 256
    requires forall j :: 0 <= j < |b| ==> 0 <= b[j] < 256
    ensures Escapes(a + b) == Escapes(a) + Escapes(b)
  {
    if a == [] {
      assert a + b == b;
    } else {
      var h := ['%', HexDigit(a[0] / 16), HexDigit(a[0] % 16)];
      assert (a + b)[0] == a[0] && (a + b)[1..] == a[1..] + b;
      EscapesAppend(a[1..], b);
      assert h + (Escapes(a[1..]) + Escapes(b)) == (h + Escapes(a[1..])) + Escapes(b);
    }
  }

  /**
   * One character is kept when it is safe, and otherwise becomes "%XX" for
   * each of its UTF-8 bytes, with upper-case hex digits.
   */
  lemma QuoteChar(c: char, safe: string)
    ensures QuoteSafe(c, safe) ==> Quote([c], safe) == [c]
    ensures !QuoteSafe(c, safe) ==>
      var q, bytes := Quote([c], safe), Utf8(c);
      && |q| == 3 * |bytes|
      && forall k :: 0 <= k < |bytes| ==>
           q[3 * k] == '%' && q[3 * k + 1] == HexDigit(bytes[k] / 16) && q[3 * k + 2] == HexDigit(bytes[k] % 16)
  {
    assert [c][1..] == [];
    if !QuoteSafe(c, safe) {
      assert Quote([c], safe) == Escapes(Utf8(c));
      forall k | 0 <= k < |Utf8(c)|
        ensures var q := Escapes(Utf8(c));
          q[3 * k] == '%' && q[3 * k + 1] == HexDigit(Utf8(c)[k] / 16) && q[3 * k + 2] == HexDigit(Utf8(c)[k] % 16)
      {
        EscapesAt(Utf8(c), k);
      }
    }
  }

  /** A space is escaped as "%20". */
  lemma QuoteSpace()
    ensures Quote("a b", "/") == "a%20b"
  {
    assert !HasChar("/", ' ') && !HasChar("/", 'b');
    assert Quote("b", "/") == "b";
    assert Utf8(' ') == [0x20];
    assert Escapes([0x20]) == "%20";
    assert Quote(" b", "/") == "%20" + Quote("b", "/");
  }

  /** A non-ASCII letter is escaped by its two UTF-8 bytes. */
  lemma QuoteNonAscii()
    ensures Quote("\U{E9}", "/") == "%C3%A9"
  {
    var e := "\U{E9}";
    assert !HasChar("/", e[0]) && !QuoteSafe(e[0], "/");
    assert Utf8(e[0]) == [0xC3, 0xA9];
    assert Escapes([0xA9]) == "%A9";
    assert Escapes([0xC3, 0xA9]) == "%C3" + Escapes([0xA9]);
    assert Quote(e, "/") == Escapes(Utf8(e[0])) + Quote("", "/");
  }
}
