/**
 * String and sequence helpers that stand for the Python built-ins the core
 * uses: `str.startswith`, `in` on strings, `str.strip`, `str.split`,
 * `str.join`, `str.lower`, `str.isalnum`, slicing `s[:n]` and `str(int)`.
 * Strings are sequences of Unicode scalar values; `isalnum` and `lower` are
 * approximated on ASCII, `isspace` lists the Basic Multilingual Plane
 * whitespace code points Python recognises.
 */
module Text {

  predicate StartsWith(s: string, prefix: string) {
    |prefix| <= |s| && s[..|prefix|] == prefix
  }

  predicate EndsWith(s: string, suffix: string) {
    |suffix| <= |s| && s[|s| - |suffix|..] == suffix
  }

  /** Python's `sub in s` for strings. */
  predicate Contains(s: string, sub: string)
    decreases |s|
  {
    StartsWith(s, sub) || (|s| > 0 && Contains(s[1..], sub))
  }

  /** No element occurs twice. */
  predicate Distinct<T(==)>(s: seq<T>) {
    forall i, j :: 0 <= i < j < |s| ==> s[i] != s[j]
  }

  /** Python's `c in s` for a single character. */
  predicate HasChar(s: string, c: char) {
    exists i :: 0 <= i < |s| && s[i] == c
  }

  /** A one-character substring test is a character membership test. */
  lemma {:induction false} ContainsChar(s: string, c: char)
    ensures Contains(s, [c]) <==> HasChar(s, c)
    decreases |s|
  {
    if s != [] {
      ContainsChar(s[1..], c);
      assert HasChar(s, c) <==> s[0] == c || HasChar(s[1..], c) by {
        if HasChar(s[1..], c) {
          var i :| 0 <= i < |s| - 1 && s[1..][i] == c;
          assert s[i + 1] == c;
        }
        if HasChar(s, c) && s[0] != c {
          var i :| 0 <= i < |s| && s[i] == c;
          assert s[1..][i - 1] == c;
        }
      }
    }
  }

  /** `str.isspace()` on one character (the code points below U+FFFF). */
  predicate IsSpace(c: char) {
    c == ' ' || ('\t' <= c <= '\r') || ('\U{1C}' <= c <= '\U{1F}')
    || c == '\U{85}' || c == '\U{A0}' || c == '\U{1680}'
    || ('\U{2000}' <= c <= '\U{200A}') || c == '\U{2028}' || c == '\U{2029}'
    || c == '\U{202F}' || c == '\U{205F}' || c == '\U{3000}'
  }

  /** `str.isalnum()` on one character, ASCII only. */
  predicate IsAlnum(c: char) {
    ('a' <= c <= 'z') || ('A' <= c <= 'Z') || ('0' <= c <= '9')
  }

  function LowerChar(c: char): char {
    if 'A' <= c <= 'Z' then (c as int + 32) as char else c
  }

  /** `str.lower()`, ASCII only. */
  function Lower(s: string): (r: string)
    ensures |r| == |s|
    ensures forall i :: 0 <= i < |s| ==> r[i] == LowerChar(s[i])
  {
    if s == [] then [] else [LowerChar(s[0])] + Lower(s[1..])
  }

  function UpperChar(c: char): char {
    if 'a' <= c <= 'z' then (c as int - 32) as char else c
  }

  /** `str.capitalize()`, ASCII only: the first character upper-cased, the rest lower-cased. */
  function Capitalize(s: string): (r: string)
    ensures |r| == |s|
    ensures s != [] ==> r[0] == UpperChar(s[0]) && r[1..] == Lower(s[1..])
  {
    if s == [] then [] else [UpperChar(s[0])] + Lower(s[1..])
  }

  function StripLeft(s: string): (r: string)
    ensures |r| <= |s| && r == s[|s| - |r|..]
    ensures r != [] ==> !IsSpace(r[0])
    ensures forall i :: 0 <= i < |s| - |r| ==> IsSpace(s[i])
  {
    if s != [] && IsSpace(s[0]) then StripLeft(s[1..]) else s
  }

  function StripRight(s: string): (r: string)
    ensures |r| <= |s| && r == s[..|r|]
    ensures r != [] ==> !IsSpace(r[|r| - 1])
    ensures forall i :: |r| <= i < |s| ==> IsSpace(s[i])
  {
    if s != [] && IsSpace(s[|s| - 1]) then StripRight(s[..|s| - 1]) else s
  }

  /** `str.strip()`: leading and trailing whitespace removed. */
  function Strip(s: string): (r: string)
    ensures |r| <= |s|
    ensures r != [] ==> !IsSpace(r[0]) && !IsSpace(r[|r| - 1])
  {
    StripLeft(StripRight(s))
  }

  /** `[f(x) for x in xs]`: the function applied to each element, in place. */
  function Map<A, B>(f: A -> B, xs: seq<A>): (r: seq<B>)
    ensures |r| == |xs|
    ensures forall i :: 0 <= i < |xs| ==> r[i] == f(xs[i])
  {
    seq(|xs|, i requires 0 <= i < |xs| => f(xs[i]))
  }

  /** Mapping distributes over concatenation. */
  lemma MapAppend<A, B>(f: A -> B, a: seq<A>, b: seq<A>)
    ensures Map(f, a + b) == Map(f, a) + Map(f, b)
  {
    var l, r := Map(f, a + b), Map(f, a) + Map(f, b);
    forall i | 0 <= i < |l| ensures l[i] == r[i] {
      if i < |a| {
        assert (a + b)[i] == a[i] && r[i] == Map(f, a)[i];
      } else {
        assert (a + b)[i] == b[i - |a|] && r[i] == Map(f, b)[i - |a|];
      }
    }
  }

  /** Stripping a string that has no whitespace at either end changes nothing. */
  lemma StripUnchanged(s: string)
    requires s != [] ==> !IsSpace(s[0]) && !IsSpace(s[|s| - 1])
    ensures Strip(s) == s
  {
  }

  /** The characters that survive a strip are a slice of the original. */
  lemma StripIsSlice(s: string)
    ensures exists i, j :: 0 <= i <= j <= |s| && Strip(s) == s[i..j]
  {
    var r := StripRight(s);
    var l := StripLeft(r);
    var a := |r| - |l|;
    assert l == r[a..] && r == s[..|r|];
    assert s[..|r|][a..] == s[a..|r|];
    assert 0 <= a <= |r| <= |s| && Strip(s) == s[a..|r|];
  }

  /** `"".join(...)` with a one-character separator. */
  function Join(parts: seq<string>, sep: char): (r: string)
  {
    if parts == [] then ""
    else if |parts| == 1 then parts[0]
    else parts[0] + [sep] + Join(parts[1..], sep)
  }

  /** `s.split(sep)` for one separator character: always at least one piece. */
  function Split(s: string, sep: char): (r: seq<string>)
    ensures |r| >= 1
    ensures forall i :: 0 <= i < |r| ==> !HasChar(r[i], sep)
    decreases |s|
  {
    if s == [] then [""]
    else
      var rest := Split(s[1..], sep);
      if s[0] == sep then [""] + rest
      else [[s[0]] + rest[0]] + rest[1..]
  }

  /** Splitting a join gives back the pieces, provided none holds the separator. */
  lemma {:induction false} SplitJoin(parts: seq<string>, sep: char)
    requires |parts| >= 1
    requires forall i :: 0 <= i < |parts| ==> !HasChar(parts[i], sep)
    ensures Split(Join(parts, sep), sep) == parts
    decreases |parts|, |parts[0]|
  {
    var p := parts[0];
    if |parts| == 1 {
      SplitNoSep(p, sep);
    } else if p == [] {
      var tail := parts[1..];
      assert Join(parts, sep) == [sep] + Join(tail, sep);
      assert ([sep] + Join(tail, sep))[1..] == Join(tail, sep);
      SplitJoin(tail, sep);
      assert parts == [""] + tail;
    } else {
      var shorter := [p[1..]] + parts[1..];
      forall i | 0 <= i < |shorter| ensures !HasChar(shorter[i], sep) {
        if i == 0 {
          NoCharInSuffix(p, sep);
        } else {
          assert shorter[i] == parts[i];
        }
      }
      SplitJoin(shorter, sep);
      assert p[0] != sep by { assert !HasChar(p, sep); }
      JoinConsHead(parts, shorter, sep);
      var s := Join(parts, sep);
      assert s[0] == p[0] && s[1..] == Join(shorter, sep);
      assert [p[0]] + p[1..] == p;
      assert parts == [p] + parts[1..];
    }
  }

  /** Joining after dropping the first character of the first piece drops the first character of the join. */
  lemma JoinConsHead(parts: seq<string>, shorter: seq<string>, sep: char)
    requires |parts| >= 1 && parts[0] != []
    requires shorter == [parts[0][1..]] + parts[1..]
    ensures Join(parts, sep) != [] && Join(parts, sep)[0] == parts[0][0]
    ensures Join(parts, sep)[1..] == Join(shorter, sep)
  {
    var p := parts[0];
    if |parts| > 1 {
      var rest := Join(parts[1..], sep);
      assert shorter[1..] == parts[1..] && shorter[0] == p[1..] && |shorter| == |parts|;
      assert Join(parts, sep) == p + [sep] + rest;
      assert Join(shorter, sep) == p[1..] + [sep] + rest;
      assert (p + [sep] + rest)[1..] == p[1..] + [sep] + rest;
    } else {
      assert Join(parts, sep) == p && Join(shorter, sep) == p[1..];
    }
  }

  /** A character missing from a non-empty string is missing from its tail too. */
  lemma NoCharInSuffix(s: string, c: char)
    requires s != [] && !HasChar(s, c)
    ensures !HasChar(s[1..], c)
  {
    forall k | 0 <= k < |s[1..]| ensures s[1..][k] != c {
      assert s[1..][k] == s[k + 1];
    }
  }

  /** A string without the separator splits into itself. */
  lemma {:induction false} SplitNoSep(s: string, sep: char)
    requires !HasChar(s, sep)
    ensures Split(s, sep) == [s]
    decreases |s|
  {
    if s != [] {
      NoCharInSuffix(s, sep);
      SplitNoSep(s[1..], sep);
      assert s[0] != sep;
      assert [s[0]] + s[1..] == s;
    }
  }

  /** `s.find(c)`: the first index of `c`, or -1 when it does not occur. */
  function IndexOf(s: string, c: char): (r: int)
    ensures -1 <= r < |s|
    ensures r == -1 <==> !HasChar(s, c)
    ensures r >= 0 ==> s[r] == c && !HasChar(s[..r], c)
    decreases |s|
  {
    if s == [] then -1
    else if s[0] == c then 0
    else
      var k := IndexOf(s[1..], c);
      assert forall i | 0 <= i < |s| - 1 :: s[1..][i] == s[i + 1];
      if k == -1 then -1
      else
        assert s[..k + 1] == [s[0]] + s[1..][..k];
        k + 1
  }

  /** The index of the first `c` is what `find` returns. */
  lemma IndexOfAt(s: string, c: char, i: int)
    requires 0 <= i < |s| && s[i] == c && !HasChar(s[..i], c)
    ensures IndexOf(s, c) == i
  {
    var r := IndexOf(s, c);
    assert HasChar(s, c);
    assert forall k | 0 <= k < i :: s[..i][k] == s[k];
    assert forall k | 0 <= k < r :: s[..r][k] == s[k];
  }

  /** A character absent from both halves is absent from their concatenation. */
  lemma NoCharConcat(a: string, b: string, c: char)
    requires !HasChar(a, c) && !HasChar(b, c)
    ensures !HasChar(a + b, c)
  {
    forall k | 0 <= k < |a + b| ensures (a + b)[k] != c {
      if k < |a| {
        assert (a + b)[k] == a[k];
      } else {
        assert (a + b)[k] == b[k - |a|];
      }
    }
  }

  /** A character absent from a string is absent from every slice of it. */
  lemma NoCharSlice(s: string, c: char, i: int, j: int)
    requires !HasChar(s, c) && 0 <= i <= j <= |s|
    ensures !HasChar(s[i..j], c)
  {
    forall k | 0 <= k < j - i ensures s[i..j][k] != c {
      assert s[i..j][k] == s[i + k];
    }
  }

  /** Python's `s[:n]`: a negative `n` counts from the end. */
  function PyTake<T>(s: seq<T>, n: int): (r: seq<T>)
    ensures n >= 0 ==> |r| == (if n < |s| then n else |s|)
    ensures n < 0 ==> |r| == (if |s| + n > 0 then |s| + n else 0)
    ensures r == s[..|r|]
  {
    if n >= 0 then (if n < |s| then s[..n] else s)
    else if |s| + n > 0 then s[..|s| + n] else []
  }

  function DigitChar(d: nat): char
    requires d < 10
  {
    "0123456789"[d]
  }

  function NatToString(n: nat): (r: string)
    ensures |r| >= 1
    ensures forall i :: 0 <= i < |r| ==> '0' <= r[i] <= '9'
  {
    if n < 10 then [DigitChar(n)] else NatToString(n / 10) + [DigitChar(n % 10)]
  }

  /** Python's `str(n)` for an integer. */
  function IntToString(n: int): (r: string)
    ensures |r| >= 1
  {
    if n < 0 then "-" + NatToString(-n) else NatToString(n)
  }

  /** `str(n)` is a minus sign for a negative number, then decimal digits. */
  lemma IntToStringChars(n: int)
    ensures var r := IntToString(n);
      && ((r[0] == '-') <==> n < 0)
      && forall i :: 0 <= i < |r| ==> (r[i] == '-' <==> n < 0 && i == 0) && (r[i] != '-' ==> '0' <= r[i] <= '9')
  {
  }

  /** A non-empty sequence is its front followed by its last element. */
  lemma SnocParts<T>(s: seq<T>)
    requires s != []
    ensures s == s[..|s| - 1] + [s[|s| - 1]]
  {
  }

  /** The prefix one longer ends in the next element, after the shorter prefix. */
  lemma PrefixLast<T>(s: seq<T>, j: int)
    requires 0 <= j < |s|
    ensures var p := s[..j + 1]; |p| == j + 1 && p[..j] == s[..j] && p[j] == s[j]
  {
  }

  /** A prefix one longer is the shorter prefix and the next element. */
  lemma SliceSnoc<T>(s: seq<T>, j: int)
    requires 0 <= j < |s|
    ensures s[..j + 1] == s[..j] + [s[j]]
  {
  }

  /** Two sequences that share a prefix share the first element and, after it, the rest of the prefix. */
  lemma SharedPrefixTail<T>(a: seq<T>, b: seq<T>, i: int)
    requires 0 < i <= |a| && i <= |b| && a[..i] == b[..i]
    ensures a[0] == b[0] && a[1..][..i - 1] == b[1..][..i - 1]
  {
    assert a[0] == a[..i][0] && b[0] == b[..i][0];
    var a', b' := a[1..][..i - 1], b[1..][..i - 1];
    forall k | 0 <= k < i - 1 ensures a'[k] == b'[k] {
      assert a'[k] == a[..i][k + 1] && b'[k] == b[..i][k + 1];
    }
  }

  /** A non-empty sequence is its first element followed by the rest. */
  lemma ConsParts<T>(s: seq<T>)
    requires s != []
    ensures s == [s[0]] + s[1..]
  {
  }

  lemma ConcatAssoc<T>(a: seq<T>, b: seq<T>, c: seq<T>)
    ensures (a + b) + c == a + (b + c)
  {
  }
}
