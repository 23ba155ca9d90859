/**
 * The task executor (orchestration/task_executor.py): runs a plan's steps in
 * order, records one result per step in a per-query results record, and turns
 * every failing step into an error record instead of stopping.
 *
 * The browser and the knowledge-source registry are oracles passed in as
 * functions: `search(query, engine, max)` lists search hits, `visit(url)`
 * gives the page record or `None` when the visit raises, and
 * `knowledge(source, query, max)` is what the registry answers.
 */
module Executor {
  import opened Wrappers
  import opened Values
  import opened Planner
  import Text

  /** The results record `execute_research_plan` keeps per query. */
  datatype Run = Run(query: string, results: seq<Record>, status: string, completedSteps: int, totalSteps: int)

  type SearchOracle = (Json, string, int) -> seq<Record>
  type VisitOracle = Json -> Option<Record>
  type KnowledgeOracle = (string, Json, int) -> seq<Json>

  const FollowupQuestions: seq<string> := [
    "How does this relate to recent developments?",
    "What are alternative perspectives on this topic?",
    "What are the practical applications of these findings?"
  ]

  function ErrorResult(kind: string, message: string): Record {
    [("type", JStr(kind)), ("status", JStr("error")), ("error", JStr(message))]
  }

  /** `_generate_followup`: the same three questions whatever the step says. */
  function FollowupResult(): Record {
    [("type", JStr("generate_followup")), ("questions", JList(Strings(FollowupQuestions))), ("status", JStr("complete"))]
  }

  function WebResult(engine: string, query: Json, pages: seq<Record>): Record {
    [("type", JStr("web_search")), ("search_engine", JStr(engine)), ("query", query),
     ("results", JList(Objects(pages))), ("status", JStr("complete"))]
  }

  function KnowledgeResult(source: string, query: Json, results: seq<Json>): Record {
    [("type", JStr("knowledge_source")), ("source", JStr(source)), ("query", query),
     ("results", JList(results)), ("status", JStr("complete"))]
  }

  /** A search hit with the visited page attached as its `content`, when the visit gave a non-empty record. */
  function Visited(hit: Record, visit: VisitOracle): Option<Record>
    requires Has(hit, "url")
  {
    match visit(Get(hit, "url").value)
    case Some(page) => if page != [] then Some(Put(hit, "content", JObj(page))) else None
    case None => None
  }

  /**
   * The pages collected from the hits, in hit order; `None` when a hit has no
   * "url": its `KeyError` escapes the `except` handler, which reads the url again.
   */
  function Pages(hits: seq<Record>, visit: VisitOracle): Option<seq<Record>> {
    if hits == [] then Some([])
    else
      var last := hits[|hits| - 1];
      match Pages(hits[..|hits| - 1], visit)
      case None => None
      case Some(prefix) =>
        if !Has(last, "url") then None
        else
          match Visited(last, visit)
          case Some(page) => Some(prefix + [page])
          case None => Some(prefix)
  }

  /** The result of a web-search step. */
  function WebOutcome(engine: string, query: Json, max: int, search: SearchOracle, visit: VisitOracle): Record {
    match Pages(Text.PyTake(search(query, engine, max), max), visit)
    case Some(pages) => WebResult(engine, query, pages)
    case None => ErrorResult("web_search", "'url'")
  }

  /**
   * The record `_execute_step` returns for a step. A step of one of the three
   * known types that lacks that type's fields fails with the `KeyError` of
   * the first missing field.
   */
  function StepOutcome(step: Step, search: SearchOracle, visit: VisitOracle, knowledge: KnowledgeOracle): Record {
    match step
    case WebSearchStep(engine, query, max, _) => WebOutcome(engine, query, max, search, visit)
    case KnowledgeStep(source, query, max, _) => KnowledgeResult(source, query, knowledge(source, query, max))
    case FollowupStep(_, _) => FollowupResult()
    case OtherStep(kind) =>
      if kind == "web_search" then ErrorResult(kind, "'search_engine'")
      else if kind == "knowledge_source" then ErrorResult(kind, "'source'")
      else if kind == "generate_followup" then ErrorResult(kind, "'based_on'")
      else ErrorResult(kind, "Unknown step type: " + kind)
  }

  /** The `type` a step carries. */
  function Kind(step: Step): string {
    match step
    case WebSearchStep(_, _, _, _) => "web_search"
    case KnowledgeStep(_, _, _, _) => "knowledge_source"
    case FollowupStep(_, _) => "generate_followup"
    case OtherStep(kind) => kind
  }

  /** `_execute_web_search`: visits the first `max` hits and keeps the pages that came back. */
  method ExecuteWebSearch(engine: string, query: Json, max: int, search: SearchOracle, visit: VisitOracle)
    returns (r: Record)
    ensures r == WebOutcome(engine, query, max, search, visit)
  {
    var hits := Text.PyTake(search(query, engine, max), max);
    var pages: seq<Record> := [];
    var i := 0;
    while i < |hits|
      invariant 0 <= i <= |hits|
      invariant Pages(hits[..i], visit) == Some(pages)
    {
      var hit := hits[i];
      assert hits[..i + 1][..i] == hits[..i];
      if !Has(hit, "url") {
        PagesRaise(hits, i, visit);
        return ErrorResult("web_search", "'url'");
      }
      var page := visit(Get(hit, "url").value);
      if page.Some? && page.value != [] {
        pages := pages + [Put(hit, "content", JObj(page.value))];
      }
      i := i + 1;
    }
    assert hits[..i] == hits;
    r := WebResult(engine, query, pages);
  }

  /** `_execute_step`: dispatch on the step type, errors captured as error records. */
  method ExecuteStep(step: Step, search: SearchOracle, visit: VisitOracle, knowledge: KnowledgeOracle)
    returns (r: Record)
    ensures r == StepOutcome(step, search, visit, knowledge)
    ensures r != []
  {
    match step {
      case WebSearchStep(engine, query, max, _) =>
        r := ExecuteWebSearch(engine, query, max, search, visit);
      case _ =>
        r := StepOutcome(step, search, visit, knowledge);
    }
    StepOutcomeShape(step, search, visit, knowledge);
  }

  /** `f` applied to each element, built front to back as a loop appends. */
  function Each<A, B>(s: seq<A>, f: A -> B): (r: seq<B>)
    ensures |r| == |s|
    ensures forall k :: 0 <= k < |s| ==> r[k] == f(s[k])
  {
    if s == [] then []
    else
      var init := s[..|s| - 1];
      assert forall k | 0 <= k < |init| :: init[k] == s[k];
      Each(init, f) + [f(s[|s| - 1])]
  }

  /** The result records of the steps, one per step in plan order. */
  function Outcomes(steps: seq<Step>, search: SearchOracle, visit: VisitOracle, knowledge: KnowledgeOracle): (r: seq<Record>)
    ensures |r| == |steps|
    ensures forall k :: 0 <= k < |steps| ==> r[k] == StepOutcome(steps[k], search, visit, knowledge)
  {
    Each(steps, step => StepOutcome(step, search, visit, knowledge))
  }

  lemma OutcomesSnoc(steps: seq<Step>, i: int, search: SearchOracle, visit: VisitOracle, knowledge: KnowledgeOracle)
    requires 0 <= i < |steps|
    ensures Outcomes(steps[..i + 1], search, visit, knowledge)
      == Outcomes(steps[..i], search, visit, knowledge) + [StepOutcome(steps[i], search, visit, knowledge)]
  {
    assert steps[..i + 1][..i] == steps[..i];
  }

  /** The record of a plan run after its first `i` steps. */
  function Progress(query: string, steps: seq<Step>, i: int, search: SearchOracle, visit: VisitOracle, knowledge: KnowledgeOracle): Run
    requires 0 <= i <= |steps|
  {
    Run(query, Outcomes(steps[..i], search, visit, knowledge), "in_progress", i, |steps|)
  }

  /** The waits taken after the first `i` of `n` steps: one after each step but the last. */
  function Pauses(i: int, n: int): int {
    if 0 < i && i == n then i - 1 else i
  }

  /** Step `i` of the plan: its result, when non-empty, is appended, and the step counts as completed. */
  method Advance(cur: Run, steps: seq<Step>, i: int, search: SearchOracle, visit: VisitOracle, knowledge: KnowledgeOracle)
    returns (next: Run)
    requires 0 <= i < |steps| && cur == Progress(cur.query, steps, i, search, visit, knowledge)
    ensures next == Progress(cur.query, steps, i + 1, search, visit, knowledge)
  {
    var result := ExecuteStep(steps[i], search, visit, knowledge);
    OutcomesSnoc(steps, i, search, visit, knowledge);
    next := cur;
    if result != [] {
      next := next.(results := next.results + [result]);
    }
    next := next.(completedSteps := next.completedSteps + 1);
  }

  /** The wait after step `i` of `n`. */
  method PauseAfter(i: int, n: int, pauses: int) returns (r: int)
    requires 0 <= i < n && pauses == Pauses(i, n)
    ensures r == Pauses(i + 1, n)
  {
    r := pauses;
    if i < n - 1 {
      r := r + 1;
    }
  }

  class TaskExecutor {
    /** `research_results`: one results record per query id. */
    var researchResults: map<string, Run>

    constructor ()
      ensures researchResults == map[]
    {
      researchResults := map[];
    }

    /**
     * `execute_research_plan`: the record starts "in_progress" with no
     * results, gains one result and one completed step per plan step, and
     * ends "complete". `pauses` counts the waits between steps.
     */
    method ExecutePlan(plan: Plan, queryId: string, search: SearchOracle, visit: VisitOracle, knowledge: KnowledgeOracle)
      returns (run: Run, pauses: int)
      modifies this`researchResults
      ensures run.query == plan.query && run.status == "complete"
      ensures run.completedSteps == run.totalSteps == |plan.steps|
      ensures run.results == Outcomes(plan.steps, search, visit, knowledge)
      ensures pauses == if plan.steps == [] then 0 else |plan.steps| - 1
      ensures researchResults == old(researchResults)[queryId := run]
    {
      var steps := plan.steps;
      var cur := Run(plan.query, [], "in_progress", 0, |steps|);
      researchResults := researchResults[queryId := cur];
      pauses := 0;
      var i := 0;
      while i < |steps|
        invariant 0 <= i <= |steps|
        invariant cur == Progress(plan.query, steps, i, search, visit, knowledge)
        invariant researchResults == old(researchResults)[queryId := cur]
        invariant pauses == Pauses(i, |steps|)
      {
        cur := Advance(cur, steps, i, search, visit, knowledge);
        researchResults := researchResults[queryId := cur];
        pauses := PauseAfter(i, |steps|, pauses);
        i := i + 1;
      }
      assert steps[..i] == steps;
      run := cur.(status := "complete");
      researchResults := researchResults[queryId := run];
    }
  }

  // ---------------------------------------------------------------------------
  // Properties

  lemma PagesSnoc(hits: seq<Record>, hit: Record, visit: VisitOracle)
    ensures Pages(hits + [hit], visit) ==
      match Pages(hits, visit)
      case None => None
      case Some(prefix) =>
        if !Has(hit, "url") then None
        else if Visited(hit, visit).Some? then Some(prefix + [Visited(hit, visit).value])
        else Some(prefix)
  {
    assert (hits + [hit])[..|hits|] == hits;
  }

  /** A hit without a url makes the whole page collection raise. */
  lemma {:induction false} PagesRaise(hits: seq<Record>, i: int, visit: VisitOracle)
    requires 0 <= i < |hits| && !Has(hits[i], "url")
    ensures Pages(hits, visit).None?
    decreases |hits|
  {
    if i < |hits| - 1 {
      PagesRaise(hits[..|hits| - 1], i, visit);
    }
  }

  /** The indices of the hits whose pages were kept, in increasing order. */
  function Kept(hits: seq<Record>, visit: VisitOracle): (idx: seq<int>)
    ensures |idx| <= |hits|
    ensures forall k :: 0 <= k < |idx| ==> 0 <= idx[k] < |hits|
    ensures forall k, l :: 0 <= k < l < |idx| ==> idx[k] < idx[l]
  {
    if hits == [] then []
    else
      var last := hits[|hits| - 1];
      var prefix := Kept(hits[..|hits| - 1], visit);
      if Has(last, "url") && Visited(last, visit).Some? then prefix + [|hits| - 1] else prefix
  }

  /**
   * The collected pages are the hits whose visit returned a page, each with
   * that page added as `content`, in rank order: page k comes from hit
   * `Kept[k]`, and these indices increase strictly.
   */
  lemma {:induction false} PagesInRankOrder(hits: seq<Record>, visit: VisitOracle)
    requires Pages(hits, visit).Some?
    ensures var pages, idx := Pages(hits, visit).value, Kept(hits, visit);
      && |pages| == |idx|
      && (forall k :: 0 <= k < |idx| ==> Has(hits[idx[k]], "url") && Visited(hits[idx[k]], visit) == Some(pages[k]))
    decreases |hits|
  {
    if hits != [] {
      var init, last := hits[..|hits| - 1], hits[|hits| - 1];
      Text.SnocParts(hits);
      PagesSnoc(init, last, visit);
      PagesInRankOrder(init, visit);
      var pages, idx := Pages(init, visit).value, Kept(init, visit);
      assert Has(last, "url");
      if Visited(last, visit).Some? {
        assert Pages(hits, visit).value == pages + [Visited(last, visit).value];
        assert Kept(hits, visit) == idx + [|init|];
      } else {
        assert Pages(hits, visit).value == pages && Kept(hits, visit) == idx;
      }
      ExtendMatch(init, last, pages, idx, visit);
    }
  }

  /** The page-to-hit correspondence survives one more hit. */
  lemma ExtendMatch(init: seq<Record>, last: Record, pages: seq<Record>, idx: seq<int>, visit: VisitOracle)
    requires Has(last, "url") && |pages| == |idx|
    requires forall k :: 0 <= k < |idx| ==> 0 <= idx[k] < |init|
    requires forall k :: 0 <= k < |idx| ==> Has(init[idx[k]], "url") && Visited(init[idx[k]], visit) == Some(pages[k])
    ensures var hits := init + [last];
      var pages' := if Visited(last, visit).Some? then pages + [Visited(last, visit).value] else pages;
      var idx' := if Visited(last, visit).Some? then idx + [|init|] else idx;
      forall k :: 0 <= k < |idx'| ==> 0 <= idx'[k] < |hits| && Has(hits[idx'[k]], "url") && Visited(hits[idx'[k]], visit) == Some(pages'[k])
  {
    var hits := init + [last];
    var pages' := if Visited(last, visit).Some? then pages + [Visited(last, visit).value] else pages;
    var idx' := if Visited(last, visit).Some? then idx + [|init|] else idx;
    forall k | 0 <= k < |idx'|
      ensures 0 <= idx'[k] < |hits| && Has(hits[idx'[k]], "url") && Visited(hits[idx'[k]], visit) == Some(pages'[k])
    {
      if k < |idx| {
        assert idx'[k] == idx[k] && pages'[k] == pages[k];
        assert hits[idx[k]] == init[idx[k]];
      } else {
        assert idx'[k] == |init| && hits[|init|] == last;
      }
    }
  }

  /** A web-search step holds at most `max` pages, and no more than the search returned. */
  lemma WebPagesBound(hits: seq<Record>, max: int, visit: VisitOracle)
    requires Pages(Text.PyTake(hits, max), visit).Some?
    ensures var n := |Pages(Text.PyTake(hits, max), visit).value|;
      n <= |hits| && (max >= 0 ==> n <= max)
  {
    PagesInRankOrder(Text.PyTake(hits, max), visit);
  }

  /** When every hit has a url and every visit returns a page, every hit is kept. */
  lemma {:induction false} AllVisited(hits: seq<Record>, visit: VisitOracle)
    requires forall i :: 0 <= i < |hits| ==> Has(hits[i], "url") && Visited(hits[i], visit).Some?
    ensures Pages(hits, visit).Some?
    ensures |Pages(hits, visit).value| == |hits|
    ensures forall i :: 0 <= i < |hits| ==> Pages(hits, visit).value[i] == Visited(hits[i], visit).value
    decreases |hits|
  {
    if hits != [] {
      var init, last := hits[..|hits| - 1], hits[|hits| - 1];
      assert forall i | 0 <= i < |init| :: init[i] == hits[i];
      AllVisited(init, visit);
      Text.SnocParts(hits);
      PagesSnoc(init, last, visit);
      var prefix := Pages(init, visit).value;
      assert Pages(hits, visit).value == prefix + [Visited(last, visit).value];
    }
  }

  lemma ErrorResultFields(kind: string, message: string)
    ensures var r := ErrorResult(kind, message);
      Get(r, "type") == Some(JStr(kind)) && Get(r, "status") == Some(JStr("error"))
      && Get(r, "error") == Some(JStr(message))
  {
    var r := ErrorResult(kind, message);
    GetAt(r, 0); GetAt(r, 1); GetAt(r, 2);
  }

  lemma FollowupResultFields()
    ensures var r := FollowupResult();
      Get(r, "type") == Some(JStr("generate_followup")) && Get(r, "status") == Some(JStr("complete"))
      && Get(r, "questions") == Some(JList(Strings(FollowupQuestions)))
  {
    var r := FollowupResult();
    GetAt(r, 0); GetAt(r, 1); GetAt(r, 2);
  }

  /**
   * Every step yields a non-empty record carrying the step's type, so every
   * step's result is recorded; unknown types and malformed steps yield an
   * "error" record, and a follow-up step always yields the three questions.
   */
  lemma StepOutcomeShape(step: Step, search: SearchOracle, visit: VisitOracle, knowledge: KnowledgeOracle)
    ensures var r := StepOutcome(step, search, visit, knowledge);
      && r != [] && Truthy(JObj(r))
      && Get(r, "type") == Some(JStr(Kind(step)))
      && (step.FollowupStep? ==>
            Get(r, "questions") == Some(JList(Strings(FollowupQuestions))) && Get(r, "status") == Some(JStr("complete")))
      && (step.OtherStep? ==> Get(r, "status") == Some(JStr("error")))
      && (step.OtherStep? && Kind(step) != "web_search" && Kind(step) != "knowledge_source" && Kind(step) != "generate_followup" ==>
            Get(r, "error") == Some(JStr("Unknown step type: " + Kind(step))))
  {
    var r := StepOutcome(step, search, visit, knowledge);
    match step {
      case WebSearchStep(engine, query, max, _) =>
        var hits := Text.PyTake(search(query, engine, max), max);
        ErrorResultFields("web_search", "'url'");
      case KnowledgeStep(_, _, _, _) =>
      case FollowupStep(_, _) =>
        FollowupResultFields();
      case OtherStep(kind) =>
        if kind == "web_search" {
          ErrorResultFields(kind, "'search_engine'");
        } else if kind == "knowledge_source" {
          ErrorResultFields(kind, "'source'");
        } else if kind == "generate_followup" {
          ErrorResultFields(kind, "'based_on'");
        } else {
          ErrorResultFields(kind, "Unknown step type: " + kind);
        }
    }
  }
}
