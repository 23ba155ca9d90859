/**
 * The research planner (orchestration/research_planner.py): the LLM's
 * analysis of a query, or a fixed fallback when the reply is not JSON, is
 * expanded into an ordered list of research steps.
 *
 * The analysis is whatever JSON the reply held, so the planner's lookups can
 * fail the way Python's do (`KeyError`, `TypeError`); `CreatePlan` then
 * returns `None`.
 */
module Planner {
  import opened Wrappers
  import opened Values

  /** One step of a research plan. `OtherStep` stands for a step of any other type. */
  datatype Step =
    | WebSearchStep(engine: string, query: Json, maxResults: int, status: string)
    | KnowledgeStep(source: string, query: Json, maxResults: int, status: string)
    | FollowupStep(basedOn: string, status: string)
    | OtherStep(kind: string)

  datatype Plan = Plan(query: string, analysis: Json, steps: seq<Step>)

  const WebSearchCap := 5
  const ArxivCap := 3
  const WikipediaCap := 2

  /** The analysis used when the reply could not be parsed as JSON. */
  function FallbackAnalysis(query: string): Json {
    JObj([
      ("main_question", JStr(query)),
      ("sub_questions", JList([JStr(query)])),
      ("search_terms", JObj([("web_search", JList([JStr(query)]))])),
      ("priority_order", JList([JStr("web_search")])),
      ("requires_followup", JBool(false)),
      ("domain_knowledge", JList([]))
    ])
  }

  /**
   * The fallback restates the query as the main and only sub-question,
   * searches the web for it alone and asks for no follow-up.
   */
  lemma FallbackFields(query: string)
    ensures var a := FallbackAnalysis(query);
      && a.JObj? && DistinctKeys(a.fields)
      && Get(a.fields, "main_question") == Some(JStr(query))
      && Get(a.fields, "sub_questions") == Some(JList([JStr(query)]))
      && Get(a.fields, "search_terms") == Some(JObj([("web_search", JList([JStr(query)]))]))
      && Get(a.fields, "priority_order") == Some(JList([JStr("web_search")]))
      && Get(a.fields, "requires_followup") == Some(JBool(false))
      && Get(a.fields, "domain_knowledge") == Some(JList([]))
  {
    var d := FallbackAnalysis(query).fields;
    assert DistinctKeys(d);
    GetAt(d, 0); GetAt(d, 1); GetAt(d, 2); GetAt(d, 3); GetAt(d, 4); GetAt(d, 5);
  }

  /**
   * `analyze_query`: `parsed` is what `json.loads` made of the LLM reply,
   * `None` when it raised `JSONDecodeError`.
   */
  function AnalyzeQuery(query: string, parsed: Option<Json>): (a: Json)
    ensures parsed.Some? ==> a == parsed.value
    ensures parsed.None? ==> a == FallbackAnalysis(query)
  {
    parsed.GetOr(FallbackAnalysis(query))
  }

  /** One web-search step per term, in term order. */
  function WebSteps(terms: seq<Json>): (r: seq<Step>)
    ensures |r| == |terms|
    ensures forall i :: 0 <= i < |terms| ==> r[i] == WebSearchStep("google", terms[i], WebSearchCap, "pending")
  {
    if terms == [] then []
    else [WebSearchStep("google", terms[0], WebSearchCap, "pending")] + WebSteps(terms[1..])
  }

  /**
   * `name in search_terms` followed by `search_terms[name]`: a dictionary
   * without the key adds nothing, a list or string that does not contain the
   * name adds nothing either; subscripting anything but a dictionary raises.
   */
  function KnowledgeSteps(terms: Json, name: string, cap: int): Option<seq<Step>> {
    match PyIn(name, terms)
    case None => None
    case Some(false) => Some([])
    case Some(true) =>
      if terms.JObj? then Some([KnowledgeStep(name, Get(terms.fields, name).value, cap, "pending")])
      else None
  }

  /**
   * A "web_search" entry: `search_terms` must be a dictionary, and its
   * "web_search" value, `[]` when absent, must be iterable.
   */
  function WebEntry(analysis: Record): Option<seq<Step>> {
    match Get(analysis, "search_terms")
    case None => None
    case Some(terms) =>
      if !terms.JObj? then None
      else
        match Iterate(GetOr(terms.fields, "web_search", JList([])))
        case None => None
        case Some(ts) => Some(WebSteps(ts))
  }

  /** The steps one entry of `priority_order` contributes. */
  function SourceSteps(source: Json, analysis: Record): Option<seq<Step>> {
    if source == JStr("web_search") then WebEntry(analysis)
    else if source == JStr("arxiv") || source == JStr("wikipedia") then
      match Get(analysis, "search_terms")
      case None => None
      case Some(terms) =>
        if source == JStr("arxiv") then KnowledgeSteps(terms, "arxiv", ArxivCap)
        else KnowledgeSteps(terms, "wikipedia", WikipediaCap)
    else Some([])
  }

  /** Sequencing of two expansions that may each raise. */
  function Then(x: Option<seq<Step>>, y: Option<seq<Step>>): (r: Option<seq<Step>>)
    ensures r.Some? <==> x.Some? && y.Some?
    ensures r.Some? ==> r.value == x.value + y.value
  {
    if x.Some? && y.Some? then Some(x.value + y.value) else None
  }

  /** The steps of the whole priority order, each entry's after the previous one's. */
  function OrderSteps(order: seq<Json>, analysis: Record): Option<seq<Step>> {
    if order == [] then Some([])
    else Then(OrderSteps(order[..|order| - 1], analysis), SourceSteps(order[|order| - 1], analysis))
  }

  /** The last step, when the analysis asks for a follow-up. */
  function FollowupSteps(analysis: Record): seq<Step> {
    if Truthy(GetOr(analysis, "requires_followup", JBool(false)))
    then [FollowupStep("initial_results", "pending")]
    else []
  }

  /** The plan `create_research_plan` builds from an analysis; `None` when it raises. */
  function PlanOf(query: string, analysis: Json): Option<Plan> {
    if !analysis.JObj? then None
    else
      match Get(analysis.fields, "priority_order")
      case None => None
      case Some(p) =>
        match Iterate(p)
        case None => None
        case Some(order) =>
          match OrderSteps(order, analysis.fields)
          case None => None
          case Some(steps) => Some(Plan(query, analysis, steps + FollowupSteps(analysis.fields)))
  }

  /** One web-search entry of the priority order: a step per term of `search_terms["web_search"]`. */
  method ExpandWebEntry(analysis: Record) returns (more: Option<seq<Step>>)
    ensures more == WebEntry(analysis)
  {
    var terms := Get(analysis, "search_terms");
    if terms.None? || !terms.value.JObj? {
      return None;
    }
    var it := Iterate(GetOr(terms.value.fields, "web_search", JList([])));
    if it.None? {
      return None;
    }
    var ts := it.value;
    var added: seq<Step> := [];
    var j := 0;
    while j < |ts|
      invariant 0 <= j <= |ts|
      invariant added == WebSteps(ts[..j])
    {
      Text.SliceSnoc(ts, j);
      WebStepsSnoc(ts[..j], ts[j]);
      added := added + [WebSearchStep("google", ts[j], WebSearchCap, "pending")];
      j := j + 1;
    }
    assert ts[..j] == ts;
    more := Some(added);
  }

  lemma WebStepsSnoc(terms: seq<Json>, t: Json)
    ensures WebSteps(terms + [t]) == WebSteps(terms) + [WebSearchStep("google", t, WebSearchCap, "pending")]
  {
  }

  /** `create_research_plan`: the steps are appended source by source and term by term. */
  method CreatePlan(query: string, analysis: Json) returns (plan: Option<Plan>)
    ensures plan == PlanOf(query, analysis)
    ensures plan.Some? ==> plan.value.query == query && plan.value.analysis == analysis
  {
    if !analysis.JObj? {
      return None;
    }
    var d := analysis.fields;
    var p := Get(d, "priority_order");
    if p.None? {
      return None;
    }
    var it := Iterate(p.value);
    if it.None? {
      return None;
    }
    var expanded := ExpandOrder(it.value, d);
    if expanded.None? {
      return None;
    }
    var steps := expanded.value;
    if Truthy(GetOr(d, "requires_followup", JBool(false))) {
      steps := steps + [FollowupStep("initial_results", "pending")];
    } else {
      assert steps + [] == steps;
    }
    plan := Some(Plan(query, analysis, steps));
  }

  /** The `for source in priority_order` loop. */
  method ExpandOrder(order: seq<Json>, d: Record) returns (expanded: Option<seq<Step>>)
    ensures expanded == OrderSteps(order, d)
  {
    var steps: seq<Step> := [];
    var i := 0;
    while i < |order|
      invariant 0 <= i <= |order|
      invariant OrderSteps(order[..i], d) == Some(steps)
    {
      var source := order[i];
      var more: Option<seq<Step>>;
      if source == JStr("web_search") {
        more := ExpandWebEntry(d);
      } else {
        more := SourceSteps(source, d);
      }
      if more.None? {
        StepsRaise(order, i, d);
        return None;
      }
      Text.SliceSnoc(order, i);
      OrderStepsSnoc(order[..i], source, d);
      steps := steps + more.value;
      i := i + 1;
    }
    assert order[..i] == order;
    expanded := Some(steps);
  }

  // ---------------------------------------------------------------------------
  // Properties of the plan

  /** When the reply is unparseable, the plan is a single Google search for the query. */
  lemma FallbackPlan(query: string)
    ensures PlanOf(query, AnalyzeQuery(query, None))
         == Some(Plan(query, FallbackAnalysis(query), [WebSearchStep("google", JStr(query), 5, "pending")]))
  {
    FallbackFields(query);
    FallbackOrder(query);
    PlanOfSteps(query, FallbackAnalysis(query), [JStr("web_search")], [WebSearchStep("google", JStr(query), 5, "pending")]);
  }

  /** A plan whose priority order expands and that asks for no follow-up is exactly the expansion. */
  lemma PlanOfSteps(query: string, analysis: Json, order: seq<Json>, steps: seq<Step>)
    requires analysis.JObj? && Get(analysis.fields, "priority_order") == Some(JList(order))
    requires OrderSteps(order, analysis.fields) == Some(steps)
    requires Get(analysis.fields, "requires_followup") == Some(JBool(false))
    ensures PlanOf(query, analysis) == Some(Plan(query, analysis, steps))
  {
    assert FollowupSteps(analysis.fields) == [];
    assert steps + [] == steps;
  }

  /** The fallback's priority order expands to the one search step. */
  lemma FallbackOrder(query: string)
    ensures OrderSteps([JStr("web_search")], FallbackAnalysis(query).fields)
         == Some([WebSearchStep("google", JStr(query), 5, "pending")])
  {
    var a := FallbackAnalysis(query);
    FallbackFields(query);
    var step := WebSearchStep("google", JStr(query), 5, "pending");
    var terms := [("web_search", JList([JStr(query)]))];
    assert GetOr(terms, "web_search", JList([])) == JList([JStr(query)]);
    WebEntrySteps(a.fields, terms, [JStr(query)]);
    assert WebSteps([JStr(query)]) == [step];
    SingleOrder(JStr("web_search"), a.fields);
  }

  lemma WebEntrySteps(analysis: Record, terms: Record, ts: seq<Json>)
    requires Get(analysis, "search_terms") == Some(JObj(terms))
    requires GetOr(terms, "web_search", JList([])) == JList(ts)
    ensures SourceSteps(JStr("web_search"), analysis) == Some(WebSteps(ts))
  {
  }

  lemma SingleOrder(source: Json, analysis: Record)
    ensures OrderSteps([source], analysis) == SourceSteps(source, analysis)
  {
    OrderStepsSnoc([], source, analysis);
    assert [] + [source] == [source];
    var x := SourceSteps(source, analysis);
    if x.Some? {
      var none: seq<Step> := [];
      assert none + x.value == x.value;
    }
  }

  /** The number of steps one priority-order entry contributes, stated independently of the steps. */
  function StepCount(source: Json, terms: Record): nat {
    if source == JStr("web_search") then
      match Iterate(GetOr(terms, "web_search", JList([])))
      case Some(ts) => |ts|
      case None => 0
    else if (source == JStr("arxiv") && Has(terms, "arxiv"))
         || (source == JStr("wikipedia") && Has(terms, "wikipedia")) then 1
    else 0
  }

  function TotalCount(order: seq<Json>, terms: Record): nat {
    if order == [] then 0 else StepCount(order[0], terms) + TotalCount(order[1..], terms)
  }

  /** Expanding a longer priority order appends the extra entries' steps. */
  lemma OrderStepsSnoc(order: seq<Json>, s: Json, analysis: Record)
    ensures OrderSteps(order + [s], analysis) == Then(OrderSteps(order, analysis), SourceSteps(s, analysis))
  {
    assert (order + [s])[..|order|] == order;
  }

  lemma ThenAssoc(x: Option<seq<Step>>, y: Option<seq<Step>>, z: Option<seq<Step>>)
    ensures Then(Then(x, y), z) == Then(x, Then(y, z))
  {
    if x.Some? && y.Some? && z.Some? {
      assert (x.value + y.value) + z.value == x.value + (y.value + z.value);
    }
  }

  lemma {:induction false} OrderStepsAppend(a: seq<Json>, b: seq<Json>, analysis: Record)
    ensures OrderSteps(a + b, analysis) == Then(OrderSteps(a, analysis), OrderSteps(b, analysis))
    decreases |b|
  {
    if b == [] {
      assert a + b == a;
      var x := OrderSteps(a, analysis);
      if x.Some? {
        assert x.value + [] == x.value;
      }
    } else {
      var b', last := b[..|b| - 1], b[|b| - 1];
      assert a + b == (a + b') + [last];
      assert b == b' + [last];
      OrderStepsSnoc(a + b', last, analysis);
      OrderStepsSnoc(b', last, analysis);
      OrderStepsAppend(a, b', analysis);
      ThenAssoc(OrderSteps(a, analysis), OrderSteps(b', analysis), SourceSteps(last, analysis));
    }
  }

  /** Once an entry raises, the expansion of any longer priority order raises too. */
  lemma StepsRaise(order: seq<Json>, i: int, analysis: Record)
    requires 0 <= i < |order|
    requires SourceSteps(order[i], analysis).None?
    ensures OrderSteps(order, analysis).None?
  {
    assert order[..i + 1][..i] == order[..i];
    assert order == order[..i + 1] + order[i + 1..];
    OrderStepsAppend(order[..i + 1], order[i + 1..], analysis);
  }

  /** The `search_terms` dictionary; a missing or non-dictionary value has no terms. */
  function TermsOf(analysis: Record): (r: Record)
    ensures Get(analysis, "search_terms") == Some(JObj(r)) || r == []
  {
    var t := Get(analysis, "search_terms");
    if t.Some? && t.value.JObj? then t.value.fields else []
  }

  /**
   * One entry's expansion, when it does not raise, has the entry's count of
   * steps; `search_terms` that is not a dictionary either raises or adds nothing.
   */
  lemma SourceStepsCount(source: Json, analysis: Record)
    requires SourceSteps(source, analysis).Some?
    ensures |SourceSteps(source, analysis).value| == StepCount(source, TermsOf(analysis))
  {
  }

  /** The step count of a successful expansion is the sum of the entries' contributions. */
  lemma {:induction false} OrderStepsCount(order: seq<Json>, analysis: Record)
    requires OrderSteps(order, analysis).Some?
    ensures |OrderSteps(order, analysis).value| == TotalCount(order, TermsOf(analysis))
    decreases |order|
  {
    if order != [] {
      assert order == [order[0]] + order[1..];
      OrderStepsAppend([order[0]], order[1..], analysis);
      assert [order[0]][..0] == [];
      SourceStepsCount(order[0], analysis);
      OrderStepsCount(order[1..], analysis);
    }
  }

  /**
   * The plan's length: each web-search entry adds one step per term, each
   * arxiv or wikipedia entry whose term is present adds one, other entries
   * add nothing, and a requested follow-up adds one more.
   */
  lemma PlanLength(query: string, analysis: Json)
    requires PlanOf(query, analysis).Some?
    ensures analysis.JObj?
    ensures var order := Iterate(Get(analysis.fields, "priority_order").value).value;
      |PlanOf(query, analysis).value.steps|
        == TotalCount(order, TermsOf(analysis.fields)) + (if Truthy(GetOr(analysis.fields, "requires_followup", JBool(false))) then 1 else 0)
  {
    var order := Iterate(Get(analysis.fields, "priority_order").value).value;
    OrderStepsCount(order, analysis.fields);
  }

  /** The per-source caps and the pending status every generated step carries. */
  predicate WellFormedStep(s: Step) {
    match s
    case WebSearchStep(engine, _, max, status) => engine == "google" && max == 5 && status == "pending"
    case KnowledgeStep(source, _, max, status) =>
      status == "pending" && ((source == "arxiv" && max == 3) || (source == "wikipedia" && max == 2))
    case FollowupStep(basedOn, status) => basedOn == "initial_results" && status == "pending"
    case OtherStep(_) => false
  }

  lemma {:induction false} OrderStepsWellFormed(order: seq<Json>, analysis: Record)
    requires OrderSteps(order, analysis).Some?
    ensures forall s :: s in OrderSteps(order, analysis).value ==> WellFormedStep(s) && !s.FollowupStep?
    decreases |order|
  {
    if order != [] {
      OrderStepsWellFormed(order[..|order| - 1], analysis);
    }
  }

  /**
   * Every planned step has one of the three planner-made shapes with its cap
   * and status "pending"; a follow-up step occurs exactly when the analysis
   * asks for one, and then only as the last step.
   */
  lemma PlanShape(query: string, analysis: Json)
    requires PlanOf(query, analysis).Some?
    ensures var steps := PlanOf(query, analysis).value.steps;
      && (forall s :: s in steps ==> WellFormedStep(s))
      && ((exists i :: 0 <= i < |steps| && steps[i].FollowupStep?)
            <==> Truthy(GetOr(analysis.fields, "requires_followup", JBool(false))))
      && (forall i :: 0 <= i < |steps| && steps[i].FollowupStep? ==> i == |steps| - 1)
  {
    var order := Iterate(Get(analysis.fields, "priority_order").value).value;
    var body := OrderSteps(order, analysis.fields).value;
    OrderStepsWellFormed(order, analysis.fields);
    var steps := PlanOf(query, analysis).value.steps;
    assert steps == body + FollowupSteps(analysis.fields);
    forall i | 0 <= i < |body| ensures !steps[i].FollowupStep? {
      assert steps[i] == body[i];
      assert body[i] in body;
    }
    if Truthy(GetOr(analysis.fields, "requires_followup", JBool(false))) {
      assert steps[|steps| - 1].FollowupStep?;
    }
  }

  /** A single web-search entry yields the terms' searches in term order. */
  lemma WebEntryOrder(query: string, analysis: Json, terms: seq<Json>)
    requires analysis.JObj?
    requires Get(analysis.fields, "priority_order") == Some(JList([JStr("web_search")]))
    requires Get(analysis.fields, "search_terms") == Some(JObj([("web_search", JList(terms))]))
    ensures PlanOf(query, analysis).Some?
    ensures var steps := PlanOf(query, analysis).value.steps;
      |steps| >= |terms| &&
      forall i :: 0 <= i < |terms| ==> steps[i] == WebSearchStep("google", terms[i], 5, "pending")
  {
    var order := [JStr("web_search")];
    assert order[..0] == [];
    var terms' := JObj([("web_search", JList(terms))]);
    assert GetOr(terms'.fields, "web_search", JList([])) == JList(terms);
    assert SourceSteps(JStr("web_search"), analysis.fields) == Some(WebSteps(terms));
    assert OrderSteps(order, analysis.fields) == Some([] + WebSteps(terms));
  }
}
