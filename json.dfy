/**
 * JSON-like values: the dictionaries, lists and scalars that the program's
 * records are made of. A dictionary is an insertion-ordered list of
 * key/value pairs, as a Python `dict` is; `Put` replaces a key in place or
 * appends it, and `Get` is the lookup `d.get(k)`.
 */
module Values {
  import opened Wrappers
  import Text

  datatype Json =
    | JNull
    | JBool(b: bool)
    | JInt(n: int)
    | JFloat(f: real)
    | JStr(s: string)
    | JList(items: seq<Json>)
    | JObj(fields: seq<(string, Json)>)

  /** A dictionary's key/value pairs in insertion order. */
  type Record = seq<(string, Json)>

  function Keys(d: Record): (r: seq<string>)
    ensures |r| == |d|
    ensures forall i :: 0 <= i < |d| ==> r[i] == d[i].0
  {
    if d == [] then [] else [d[0].0] + Keys(d[1..])
  }

  /** Python dictionaries never hold a key twice. */
  predicate DistinctKeys(d: Record) {
    forall i, j :: 0 <= i < j < |d| ==> d[i].0 != d[j].0
  }

  predicate Has(d: Record, k: string) {
    exists i :: 0 <= i < |d| && d[i].0 == k
  }

  /** `d.get(k)`: the value stored under `k`, if any. */
  function Get(d: Record, k: string): (r: Option<Json>)
    ensures r.Some? <==> Has(d, k)
    ensures r.Some? ==> exists i :: 0 <= i < |d| && d[i] == (k, r.value)
  {
    if d == [] then None
    else if d[0].0 == k then Some(d[0].1)
    else Get(d[1..], k)
  }

  /** `d.get(k, default)`. */
  function GetOr(d: Record, k: string, default: Json): Json {
    Get(d, k).GetOr(default)
  }

  /** `d[k] = v`: replaces the value in place when `k` is present, appends it otherwise. */
  function Put(d: Record, k: string, v: Json): (r: Record)
    ensures Has(d, k) ==> Keys(r) == Keys(d)
    ensures !Has(d, k) ==> Keys(r) == Keys(d) + [k]
  {
    if d == [] then [(k, v)]
    else if d[0].0 == k then [(k, v)] + d[1..]
    else [d[0]] + Put(d[1..], k, v)
  }

  /** After `d[k] = v`, `k` maps to `v` and every other key keeps its value. */
  lemma {:induction false} PutGet(d: Record, k: string, v: Json, k': string)
    ensures Get(Put(d, k, v), k') == if k' == k then Some(v) else Get(d, k')
  {
    if d != [] && d[0].0 != k {
      PutGet(d[1..], k, v, k');
    }
  }

  /** Assignment keeps a dictionary's keys distinct. */
  lemma PutDistinct(d: Record, k: string, v: Json)
    requires DistinctKeys(d)
    ensures DistinctKeys(Put(d, k, v))
  {
    var r := Put(d, k, v);
    forall i, j | 0 <= i < j < |r| ensures r[i].0 != r[j].0 {
      assert Keys(r)[i] == r[i].0 && Keys(r)[j] == r[j].0;
      if !Has(d, k) && j == |d| {
        assert Keys(r)[i] == Keys(d)[i];
      } else {
        assert Keys(r)[i] == Keys(d)[i] && Keys(r)[j] == Keys(d)[j];
      }
    }
  }

  /** Python truthiness of a value. */
  predicate Truthy(j: Json) {
    match j
    case JNull => false
    case JBool(b) => b
    case JInt(n) => n != 0
    case JFloat(f) => f != 0.0
    case JStr(s) => s != ""
    case JList(items) => items != []
    case JObj(fields) => fields != []
  }

  /** `len(j)`: `None` stands for the `TypeError` Python raises on a scalar. */
  function PyLen(j: Json): (r: Option<nat>)
    ensures r.Some? <==> (j.JStr? || j.JList? || j.JObj?)
    ensures r.Some? ==> (r.value > 0 <==> Truthy(j))
  {
    match j
    case JStr(s) => Some(|s|)
    case JList(items) => Some(|items|)
    case JObj(fields) => Some(|fields|)
    case _ => None
  }

  /** A string value, or "" for anything else. */
  function AsString(j: Json): string {
    if j.JStr? then j.s else ""
  }

  /** A list value, or [] for anything else. */
  function AsList(j: Json): seq<Json> {
    if j.JList? then j.items else []
  }

  function Strings(ss: seq<string>): (r: seq<Json>)
    ensures |r| == |ss|
    ensures forall i :: 0 <= i < |ss| ==> r[i] == JStr(ss[i])
  {
    if ss == [] then [] else [JStr(ss[0])] + Strings(ss[1..])
  }

  /** A list of dictionaries as values. */
  function Objects(rs: seq<Record>): (r: seq<Json>)
    ensures |r| == |rs|
    ensures forall i :: 0 <= i < |rs| ==> r[i] == JObj(rs[i])
  {
    if rs == [] then [] else [JObj(rs[0])] + Objects(rs[1..])
  }

  /** `j.get(k, default)`: `None` stands for the `AttributeError` Python raises when `j` is not a dictionary. */
  function PyGet(j: Json, k: string, default: Json): (r: Option<Json>)
    ensures r.Some? <==> j.JObj?
    ensures j.JObj? ==> r == Some(GetOr(j.fields, k, default))
  {
    if j.JObj? then Some(GetOr(j.fields, k, default)) else None
  }

  /** The one-character strings of `s`, which is what iterating over a `str` yields. */
  function Chars(s: string): (r: seq<Json>)
    ensures |r| == |s|
    ensures forall i :: 0 <= i < |s| ==> r[i] == JStr([s[i]])
  {
    if s == [] then [] else [JStr([s[0]])] + Chars(s[1..])
  }

  /**
   * What a Python `for` loop over the value visits: list items, string
   * characters or dictionary keys; `None` is the `TypeError` for anything else.
   */
  function Iterate(j: Json): (r: Option<seq<Json>>)
    ensures j.JList? ==> r == Some(j.items)
    ensures r.Some? <==> (j.JList? || j.JStr? || j.JObj?)
  {
    match j
    case JList(items) => Some(items)
    case JStr(s) => Some(Chars(s))
    case JObj(fields) => Some(Strings(Keys(fields)))
    case _ => None
  }

  /**
   * Python's `k in j` for a string `k`: a dictionary key, a list element, a
   * substring; `None` is the `TypeError` raised for a scalar.
   */
  function PyIn(k: string, j: Json): (r: Option<bool>)
    ensures j.JObj? ==> r == Some(Has(j.fields, k))
    ensures r.None? <==> !(j.JObj? || j.JList? || j.JStr?)
  {
    match j
    case JObj(fields) => Some(Has(fields, k))
    case JList(items) => Some(JStr(k) in items)
    case JStr(s) => Some(Text.Contains(s, k))
    case _ => None
  }

  /**
   * Python's `str(j)`, as an f-string renders a value. Strings inside
   * containers are quoted with `'` and not escaped.
   */
  function PyStr(j: Json): string {
    match j
    case JStr(s) => s
    case _ => Repr(j)
  }

  function Repr(j: Json): string
    decreases j, 1
  {
    match j
    case JNull => "None"
    case JBool(b) => if b then "True" else "False"
    case JInt(n) => Text.IntToString(n)
    case JFloat(f) => FloatRepr(f)
    case JStr(s) => "'" + s + "'"
    case JList(items) => "[" + ReprItems(j, items) + "]"
    case JObj(fields) => "{" + ReprFields(j, fields) + "}"
  }

  function ReprItems(ghost parent: Json, items: seq<Json>): string
    requires forall x | x in items :: x < parent
    decreases parent, 0, |items|
  {
    if items == [] then ""
    else
      assert items[0] in items;
      assert forall x | x in items[1..] :: x in items;
      Repr(items[0]) + (if |items| > 1 then ", " + ReprItems(parent, items[1..]) else "")
  }

  function ReprFields(ghost parent: Json, fields: seq<(string, Json)>): string
    requires forall p | p in fields :: p.1 < parent
    decreases parent, 0, |fields|
  {
    if fields == [] then ""
    else
      assert fields[0] in fields;
      assert forall p | p in fields[1..] :: p in fields;
      "'" + fields[0].0 + "': " + Repr(fields[0].1)
         + (if |fields| > 1 then ", " + ReprFields(parent, fields[1..]) else "")
  }

  /**
   * `repr(f)` for a float written as a decimal literal: the digits of the
   * value, at least one after the point, at most 17.
   */
  function FloatRepr(f: real): string {
    if f < 0.0 then "-" + UnsignedRepr(-f) else UnsignedRepr(f)
  }

  function UnsignedRepr(f: real): string
    requires f >= 0.0
  {
    var whole := f.Floor;
    var fraction := f - whole as real;
    Text.IntToString(whole) + "." + (if fraction == 0.0 then "0" else FractionDigits(fraction, 17))
  }

  function FractionDigits(fraction: real, n: nat): string
    requires 0.0 <= fraction < 1.0
    decreases n
  {
    if n == 0 || fraction == 0.0 then ""
    else
      var d := (fraction * 10.0).Floor;
      [Text.DigitChar(d)] + FractionDigits(fraction * 10.0 - d as real, n - 1)
  }

  /** Looking up a key in a record built from distinct keys yields the paired value. */
  lemma GetAt(d: Record, i: int)
    requires DistinctKeys(d) && 0 <= i < |d|
    ensures Get(d, d[i].0) == Some(d[i].1)
  {
    if i > 0 && d[0].0 != d[i].0 {
      GetAt(d[1..], i - 1);
    }
  }

  /** The first entry under a key is the one `get` finds. */
  lemma {:induction false} GetFirst(d: Record, i: int)
    requires 0 <= i < |d| && forall j :: 0 <= j < i ==> d[j].0 != d[i].0
    ensures Get(d, d[i].0) == Some(d[i].1)
  {
    if i > 0 {
      assert d[0].0 != d[i].0;
      GetFirst(d[1..], i - 1);
    }
  }
}
