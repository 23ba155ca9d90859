/** Optional values, for Python's `None` and for "nothing came back". */
module Wrappers {

  datatype Option<+T> = None | Some(value: T) {

    /** The contained value, or `default` when there is none. */
    function GetOr(default: T): (r: T)
      ensures Some? ==> r == value
      ensures None? ==> r == default
    {
      match this
      case Some(v) => v
      case None => default
    }
  }

  /**
   * `f` applied to each element front to back, as a loop collects results;
   * `None` when any application fails, as when one iteration raises.
   */
  function Traverse<A, B>(s: seq<A>, f: A -> Option<B>): (r: Option<seq<B>>)
    ensures r.Some? <==> forall k :: 0 <= k < |s| ==> f(s[k]).Some?
    ensures r.Some? ==> |r.value| == |s| && forall k :: 0 <= k < |s| ==> f(s[k]) == Some(r.value[k])
  {
    if s == [] then Some([])
    else
      var init := s[..|s| - 1];
      assert forall k | 0 <= k < |init| :: init[k] == s[k];
      match Traverse(init, f)
      case None => None
      case Some(prefix) =>
        match f(s[|s| - 1])
        case None => None
        case Some(x) => Some(prefix + [x])
  }

  /** One more successful iteration appends its result. */
  lemma TraverseStep<A, B>(s: seq<A>, i: int, f: A -> Option<B>, out: seq<B>)
    requires 0 <= i < |s| && Traverse(s[..i], f) == Some(out) && f(s[i]).Some?
    ensures Traverse(s[..i + 1], f) == Some(out + [f(s[i]).value])
  {
    assert s[..i + 1][..i] == s[..i];
  }

  /**
   * A loop that appends what each element yields, if anything: `f` gives
   * `None` when the iteration raises and `Some(None)` when it skips the
   * element; the whole is `None` when any iteration raises.
   */
  function Gather<A, B>(s: seq<A>, f: A -> Option<Option<B>>): (r: Option<seq<B>>)
    ensures r.Some? <==> forall k :: 0 <= k < |s| ==> f(s[k]).Some?
    ensures r.Some? ==> |r.value| <= |s|
  {
    if s == [] then Some([])
    else
      var init := s[..|s| - 1];
      assert forall k | 0 <= k < |init| :: init[k] == s[k];
      match Gather(init, f)
      case None => None
      case Some(prefix) =>
        match f(s[|s| - 1])
        case None => None
        case Some(x) => Some(if x.Some? then prefix + [x.value] else prefix)
  }

  /** One more iteration: a raise ends the loop, a skip keeps the list, a value is appended. */
  lemma GatherStep<A, B>(s: seq<A>, i: int, f: A -> Option<Option<B>>, out: seq<B>)
    requires 0 <= i < |s| && Gather(s[..i], f) == Some(out)
    ensures f(s[i]).None? ==> Gather(s[..i + 1], f).None?
    ensures f(s[i]) == Some(None) ==> Gather(s[..i + 1], f) == Some(out)
    ensures f(s[i]).Some? && f(s[i]).value.Some? ==> Gather(s[..i + 1], f) == Some(out + [f(s[i]).value.value])
  {
    assert s[..i + 1][..i] == s[..i];
  }

  /** Every gathered value is one an element yields. */
  lemma {:induction false} GatherFrom<A, B>(s: seq<A>, f: A -> Option<Option<B>>, i: int)
    requires Gather(s, f).Some? && 0 <= i < |Gather(s, f).value|
    ensures exists k :: 0 <= k < |s| && f(s[k]) == Some(Some(Gather(s, f).value[i]))
  {
    var init := s[..|s| - 1];
    var prefix := Gather(init, f).value;
    if i < |prefix| {
      GatherFrom(init, f, i);
      var k :| 0 <= k < |init| && f(init[k]) == Some(Some(prefix[i]));
      assert s[k] == init[k];
    } else {
      assert f(s[|s| - 1]) == Some(Some(Gather(s, f).value[i]));
    }
  }
}
