/**
 * The web interface's task bookkeeping (ui/web.py): the active-task and
 * result tables, the status a research task moves through, the lookups
 * the API answers with, the history listing and the report filename.
 *
 * The planner, executor and report generator are outcomes passed in
 * (`Raised` when the call raises), task ids are given, and timestamps are
 * whole seconds passed in.
 */
module WebUi {
  import opened Wrappers
  import opened Values
  import Text

  /** The status a research task reports. */
  datatype Status = Pending | Analyzing | Researching | GeneratingReport | Complete | Error

  function StatusName(s: Status): string {
    match s
    case Pending => "pending"
    case Analyzing => "analyzing"
    case Researching => "researching"
    case GeneratingReport => "generating_report"
    case Complete => "complete"
    case Error => "error"
  }

  /** The position of a status in a task's life. */
  function Rank(s: Status): nat {
    match s
    case Pending => 0
    case Analyzing => 1
    case Researching => 2
    case GeneratingReport => 3
    case Complete => 4
    case Error => 5
  }

  /** An entry of `active_tasks`. */
  datatype TaskInfo = TaskInfo(query: string, maxResults: int, status: Status, progress: int, totalSteps: int,
                               startedAt: int, currentStep: string, error: Option<string>)

  /** An entry of `results`. */
  datatype ResultInfo = ResultInfo(queryId: string, query: string, report: string, createdAt: int, filePath: string)

  /** A call's outcome: its value, or the message of the exception it raised. */
  datatype Attempt<T> = Ok(value: T) | Raised(message: string)

  /** The characters the filename sanitiser keeps: alphanumerics and " -_". */
  predicate SafeChar(c: char) {
    Text.IsAlnum(c) || c == ' ' || c == '-' || c == '_'
  }

  function Sanitise(query: string): (r: string)
    ensures |r| == |query|
    ensures forall i :: 0 <= i < |r| ==> r[i] == if SafeChar(query[i]) then query[i] else '_'
  {
    if query == [] then [] else [if SafeChar(query[0]) then query[0] else '_'] + Sanitise(query[1..])
  }

  /** The sanitised query: each other character replaced by "_", then cut to 50 characters. */
  function SafeQuery(query: string): (r: string)
    ensures |r| == if |query| < 50 then |query| else 50
    ensures forall i :: 0 <= i < |r| ==> SafeChar(r[i])
    ensures forall i :: 0 <= i < |r| ==> r[i] == if SafeChar(query[i]) then query[i] else '_'
  {
    Text.PyTake(Sanitise(query), 50)
  }

  /** The report file name for a query and a whole-second timestamp. */
  function ReportFilename(query: string, timestamp: int): (r: string)
    ensures Text.StartsWith(r, "research_") && Text.EndsWith(r, ".md")
    ensures var q := SafeQuery(query);
      && |r| == 9 + |q| + 1 + |Text.IntToString(timestamp)| + 3
      && r[9..9 + |q|] == q && r[9 + |q|] == '_'
      && r[9 + |q| + 1..|r| - 3] == Text.IntToString(timestamp)
    ensures !Text.HasChar(r, '/')
  {
    var q, t := SafeQuery(query), Text.IntToString(timestamp);
    var r := "research_" + q + "_" + t + ".md";
    assert r[..9] == "research_";
    assert r[|r| - 3..] == ".md";
    assert r[9..9 + |q|] == q;
    assert r[9 + |q| + 1..|r| - 3] == t;
    SafeQueryNoSlash(query);
    Text.IntToStringChars(timestamp);
    Text.NoCharConcat("research_", q, '/');
    Text.NoCharConcat("research_" + q, "_", '/');
    Text.NoCharConcat("research_" + q + "_", t, '/');
    Text.NoCharConcat("research_" + q + "_" + t, ".md", '/');
    r
  }

  /** The report file name never leaves the reports directory: the query part has no "/". */
  lemma SafeQueryNoSlash(query: string)
    ensures !Text.HasChar(SafeQuery(query), '/')
  {
  }

  /** The statuses `_conduct_research` sets, in order, for each way the run can go. */
  function Trace(plan: Attempt<nat>, execution: Attempt<Json>, report: Attempt<string>, written: Attempt<Json>): seq<Status> {
    if plan.Raised? then [Analyzing, Error]
    else if execution.Raised? then [Analyzing, Researching, Error]
    else if report.Raised? || written.Raised? then [Analyzing, Researching, GeneratingReport, Error]
    else [Analyzing, Researching, GeneratingReport, Complete]
  }

  /** `str(e)` for the first call that raised: planning, execution, report generation, then the file write. */
  function FailureMessage(plan: Attempt<nat>, execution: Attempt<Json>, report: Attempt<string>, written: Attempt<Json>): string {
    if plan.Raised? then plan.message
    else if execution.Raised? then execution.message
    else if report.Raised? then report.message
    else if written.Raised? then written.message
    else ""
  }

  /**
   * The task record at the end of `_conduct_research`, from the record it
   * started with: the status the trace ends in, `total_steps` once the plan
   * exists, `progress` equal to it on completion, and `str(e)` of the first
   * failing call on error. The query, limit and start time are kept.
   */
  function FinalTask(t: TaskInfo, plan: Attempt<nat>, execution: Attempt<Json>, report: Attempt<string>,
                     written: Attempt<Json>): (r: TaskInfo)
    ensures var trace := Trace(plan, execution, report, written);
      r.status == trace[|trace| - 1]
    ensures r.query == t.query && r.maxResults == t.maxResults && r.startedAt == t.startedAt
    ensures plan.Ok? ==> r.totalSteps == plan.value
    ensures plan.Raised? ==> r.totalSteps == t.totalSteps
    ensures r.status == Complete ==> r.progress == r.totalSteps && r.error == t.error
    ensures r.status == Error ==> r.progress == t.progress && r.error == Some(FailureMessage(plan, execution, report, written))
  {
    var analyzing := t.(status := Analyzing, currentStep := "Analyzing query and planning research");
    if plan.Raised? then analyzing.(status := Error, error := Some(FailureMessage(plan, execution, report, written)))
    else
      var researching := analyzing.(totalSteps := plan.value, status := Researching);
      if execution.Raised? then researching.(status := Error, error := Some(FailureMessage(plan, execution, report, written)))
      else
        var generating := researching.(status := GeneratingReport, currentStep := "Generating final research report");
        if report.Raised? || written.Raised? then
          generating.(status := Error, error := Some(FailureMessage(plan, execution, report, written)))
        else generating.(status := Complete, progress := generating.totalSteps)
  }

  /** A task only moves forward, and ends complete exactly when every call succeeded, and otherwise in error. */
  lemma TraceForward(plan: Attempt<nat>, execution: Attempt<Json>, report: Attempt<string>, written: Attempt<Json>)
    ensures var t := Trace(plan, execution, report, written);
      t != [] && forall i, j :: 0 <= i < j < |t| ==> Rank(t[i]) < Rank(t[j])
    ensures var t := Trace(plan, execution, report, written);
      t != [] && (t[|t| - 1] == Complete <==> plan.Ok? && execution.Ok? && report.Ok? && written.Ok?)
    ensures var t := Trace(plan, execution, report, written);
      t != [] && (t[|t| - 1] == Complete || t[|t| - 1] == Error)
  {
  }

  /** Newest first: a stable insertion by `created_at`, as `sort(reverse=True)` orders. */
  function Insert(x: ResultInfo, sorted: seq<ResultInfo>): (r: seq<ResultInfo>)
    ensures |r| == |sorted| + 1
    ensures multiset(r) == multiset(sorted) + multiset{x}
  {
    if sorted == [] then [x]
    else if sorted[0].createdAt < x.createdAt then [x] + sorted
    else
      assert sorted == [sorted[0]] + sorted[1..];
      [sorted[0]] + Insert(x, sorted[1..])
  }

  predicate NewestFirst(s: seq<ResultInfo>) {
    forall i, j :: 0 <= i < j < |s| ==> s[i].createdAt >= s[j].createdAt
  }

  /** Each entry is at least as new as the next. */
  predicate AdjacentNewestFirst(s: seq<ResultInfo>) {
    forall i :: 0 <= i < |s| - 1 ==> s[i].createdAt >= s[i + 1].createdAt
  }

  lemma {:induction false} InsertSorted(x: ResultInfo, sorted: seq<ResultInfo>)
    requires AdjacentNewestFirst(sorted)
    ensures AdjacentNewestFirst(Insert(x, sorted))
    ensures Insert(x, sorted)[0] == (if sorted == [] || sorted[0].createdAt < x.createdAt then x else sorted[0])
  {
    if sorted != [] && sorted[0].createdAt >= x.createdAt {
      var tail := sorted[1..];
      assert AdjacentNewestFirst(tail) by {
        forall i | 0 <= i < |tail| - 1 ensures tail[i].createdAt >= tail[i + 1].createdAt {
          assert tail[i] == sorted[i + 1] && tail[i + 1] == sorted[i + 2];
        }
      }
      InsertSorted(x, tail);
      var r := Insert(x, sorted);
      var rest := Insert(x, tail);
      assert r == [sorted[0]] + rest;
      forall i | 0 <= i < |r| - 1 ensures r[i].createdAt >= r[i + 1].createdAt {
        if i > 0 {
          assert r[i] == rest[i - 1] && r[i + 1] == rest[i];
        }
      }
    }
  }

  /** Order between neighbours is order throughout. */
  lemma {:induction false} AdjacentIsSorted(s: seq<ResultInfo>)
    requires AdjacentNewestFirst(s)
    ensures NewestFirst(s)
  {
    if |s| > 1 {
      var tail := s[1..];
      assert AdjacentNewestFirst(tail) by {
        forall i | 0 <= i < |tail| - 1 ensures tail[i].createdAt >= tail[i + 1].createdAt {
          assert tail[i] == s[i + 1] && tail[i + 1] == s[i + 2];
        }
      }
      AdjacentIsSorted(tail);
      forall i, j | 0 <= i < j < |s| ensures s[i].createdAt >= s[j].createdAt {
        if i > 0 {
          assert s[i] == tail[i - 1] && s[j] == tail[j - 1];
        } else {
          assert s[1] == tail[0] && s[j] == tail[j - 1];
        }
      }
    }
  }

  /** `history.sort(key=created_at, reverse=True)`. */
  function SortNewest(items: seq<ResultInfo>): (r: seq<ResultInfo>)
    ensures |r| == |items| && multiset(r) == multiset(items)
  {
    if items == [] then []
    else
      assert items == items[..|items| - 1] + [items[|items| - 1]];
      Insert(items[|items| - 1], SortNewest(items[..|items| - 1]))
  }

  /** The sorted history is newest first. */
  lemma SortNewestSorted(items: seq<ResultInfo>)
    ensures NewestFirst(SortNewest(items))
  {
    SortNewestAdjacent(items);
    AdjacentIsSorted(SortNewest(items));
  }

  lemma {:induction false} SortNewestAdjacent(items: seq<ResultInfo>)
    ensures AdjacentNewestFirst(SortNewest(items))
  {
    if items != [] {
      SortNewestAdjacent(items[..|items| - 1]);
      InsertSorted(items[|items| - 1], SortNewest(items[..|items| - 1]));
    }
  }

  /** The three fields a history entry keeps. */
  function HistoryEntry(item: ResultInfo): Json {
    JObj([("query_id", JStr(item.queryId)), ("query", JStr(item.query)), ("created_at", JInt(item.createdAt))])
  }

  function HistoryEntries(items: seq<ResultInfo>): (r: seq<Json>)
    ensures |r| == |items| && forall i :: 0 <= i < |items| ==> r[i] == HistoryEntry(items[i])
  {
    if items == [] then [] else [HistoryEntry(items[0])] + HistoryEntries(items[1..])
  }

  /** A result as the API returns it. */
  function ResultJson(r: ResultInfo): Json {
    JObj([("query_id", JStr(r.queryId)), ("query", JStr(r.query)), ("report", JStr(r.report)),
          ("created_at", JInt(r.createdAt)), ("file_path", JStr(r.filePath))])
  }

  /** A task's progress as the API returns it. */
  function ProgressJson(id: string, t: TaskInfo): Json {
    JObj([("query_id", JStr(id)), ("status", JStr(StatusName(t.status))), ("progress", JInt(t.progress)),
          ("total_steps", JInt(t.totalSteps))])
  }

  /** The values under `keys`, in the order of `keys`. */
  function Pick(m: map<string, ResultInfo>, keys: seq<string>): (r: seq<ResultInfo>)
    requires forall i :: 0 <= i < |keys| ==> keys[i] in m
    ensures |r| == |keys| && forall i :: 0 <= i < |keys| ==> r[i] == m[keys[i]]
  {
    if keys == [] then [] else [m[keys[0]]] + Pick(m, keys[1..])
  }

  class WebInterface {
    var activeTasks: map<string, TaskInfo>
    /** `results`, with `order` its keys in insertion order. */
    var results: map<string, ResultInfo>
    var order: seq<string>

    /** Every stored result is listed once in `order` and is filed under its own id. */
    predicate Valid()
      reads this
    {
      Text.Distinct(order) && (forall k :: k in order ==> k in results) && (forall k :: k in results ==> k in order) &&
      forall k :: k in results ==> results[k].queryId == k
    }

    constructor ()
      ensures Valid() && activeTasks == map[] && results == map[] && order == []
    {
      activeTasks := map[];
      results := map[];
      order := [];
    }

    /** `start_research`: the new task is pending, with no progress and no steps yet. */
    method StartResearch(queryId: string, query: string, maxResults: int, now: int) returns (answer: Json)
      modifies this`activeTasks
      ensures activeTasks == old(activeTasks)[queryId := TaskInfo(query, maxResults, Pending, 0, 0, now, "", None)]
      ensures answer == JObj([("query_id", JStr(queryId))])
    {
      activeTasks := activeTasks[queryId := TaskInfo(query, maxResults, Pending, 0, 0, now, "", None)];
      answer := JObj([("query_id", JStr(queryId))]);
    }

    /** `get_research_result`: the stored result first, then the active task's progress, else 404 (`None`). */
    function Lookup(queryId: string): (r: Option<Json>)
      reads this
      ensures queryId in results ==> r == Some(ResultJson(results[queryId]))
      ensures queryId !in results && queryId in activeTasks ==> r == Some(ProgressJson(queryId, activeTasks[queryId]))
      ensures r.None? <==> queryId !in results && queryId !in activeTasks
    {
      if queryId in results then Some(ResultJson(results[queryId]))
      else if queryId in activeTasks then Some(ProgressJson(queryId, activeTasks[queryId]))
      else None
    }

    /** `download_report`: the stored file and its download name, or 404 (`None`) for an unknown id. */
    function Download(queryId: string): (r: Option<(string, string)>)
      reads this
      ensures r.None? <==> queryId !in results
      ensures r.Some? ==> r.value == (results[queryId].filePath, ReportFilename(results[queryId].query, results[queryId].createdAt))
    {
      if queryId in results then
        var res := results[queryId];
        Some((res.filePath, ReportFilename(res.query, res.createdAt)))
      else None
    }

    /** The stored results in insertion order. */
    function Stored(): (r: seq<ResultInfo>)
      reads this
      requires Valid()
      ensures |r| == |order| && forall i :: 0 <= i < |order| ==> r[i] == results[order[i]]
    {
      Pick(results, order)
    }

    /** `get_research_history`: the stored results, newest first, with three fields each. */
    function History(): (r: Json)
      reads this
      requires Valid()
    {
      JObj([("history", JList(HistoryEntries(SortNewest(Stored()))))])
    }

    /** `self.results[query_id] = ...`: a new id goes to the end of the insertion order. */
    method StoreResult(queryId: string, info: ResultInfo)
      requires Valid() && info.queryId == queryId
      modifies this`results, this`order
      ensures Valid()
      ensures results == old(results)[queryId := info]
      ensures order == if queryId in old(results) then old(order) else old(order) + [queryId]
    {
      if queryId !in results {
        order := order + [queryId];
      }
      results := results[queryId := info];
    }

    /**
     * `_conduct_research` up to the moment the task is finished: the
     * statuses it sets in order, the stored result on success and the error
     * on failure. A task id that is not active makes it do nothing.
     */
    method ConductResearch(queryId: string, query: string, plan: Attempt<nat>, execution: Attempt<Json>,
                           report: Attempt<string>, written: Attempt<Json>, savedAt: int, createdAt: int)
      returns (statuses: seq<Status>)
      requires Valid()
      modifies this`activeTasks, this`results, this`order
      ensures Valid()
      ensures queryId !in old(activeTasks) ==>
        statuses == [] && activeTasks == old(activeTasks) && results == old(results) && order == old(order)
      ensures queryId in old(activeTasks) ==> statuses == Trace(plan, execution, report, written)
      ensures queryId in old(activeTasks) ==>
        activeTasks == old(activeTasks)[queryId := FinalTask(old(activeTasks)[queryId], plan, execution, report, written)]
      ensures queryId in old(activeTasks) ==>
        queryId in activeTasks && activeTasks == old(activeTasks)[queryId := activeTasks[queryId]]
      ensures queryId in old(activeTasks) ==>
        activeTasks[queryId].status == statuses[|statuses| - 1] &&
        activeTasks[queryId].query == old(activeTasks)[queryId].query &&
        activeTasks[queryId].startedAt == old(activeTasks)[queryId].startedAt
      ensures queryId in old(activeTasks) && statuses[|statuses| - 1] == Complete ==>
        activeTasks[queryId].progress == activeTasks[queryId].totalSteps == plan.value &&
        results == old(results)[queryId := ResultInfo(queryId, query, report.value, createdAt,
                                                       "reports/" + ReportFilename(query, savedAt))]
      ensures queryId in old(activeTasks) && statuses[|statuses| - 1] == Complete ==>
        order == if queryId in old(results) then old(order) else old(order) + [queryId]
      ensures queryId in old(activeTasks) && plan.Ok? ==> activeTasks[queryId].totalSteps == plan.value
      ensures queryId in old(activeTasks) && statuses[|statuses| - 1] == Error ==>
        results == old(results) && order == old(order) && activeTasks[queryId].error.Some?
      ensures queryId in old(activeTasks) && statuses[|statuses| - 1] == Error ==>
        activeTasks[queryId].error == Some(FailureMessage(plan, execution, report, written))
    {
      if queryId !in activeTasks {
        return [];
      }
      var task := FinalTask(activeTasks[queryId], plan, execution, report, written);
      statuses := Trace(plan, execution, report, written);
      TraceForward(plan, execution, report, written);
      if statuses[|statuses| - 1] == Complete {
        StoreResult(queryId, ResultInfo(queryId, query, report.value, createdAt, "reports/" + ReportFilename(query, savedAt)));
      }
      activeTasks := activeTasks[queryId := task];
    }

    /** The delayed clean-up after a finished run: the task leaves `active_tasks`. */
    method Expire(queryId: string)
      modifies this`activeTasks
      ensures activeTasks == old(activeTasks) - {queryId}
    {
      if queryId in activeTasks {
        activeTasks := activeTasks - {queryId};
      }
    }
  }

  /**
   * A whole `_conduct_research` run followed by its delayed clean-up: the
   * task is gone from `active_tasks`, and a lookup is answered from the
   * stored result after success, and as before the run after an error.
   */
  method ConductThenExpire(w: WebInterface, queryId: string, query: string, plan: Attempt<nat>, execution: Attempt<Json>,
                           report: Attempt<string>, written: Attempt<Json>, savedAt: int, createdAt: int)
    returns (statuses: seq<Status>)
    requires w.Valid() && queryId in w.activeTasks
    modifies w`activeTasks, w`results, w`order
    ensures w.Valid() && queryId !in w.activeTasks
    ensures statuses == Trace(plan, execution, report, written)
    ensures statuses[|statuses| - 1] == Complete ==>
      w.Lookup(queryId) == Some(ResultJson(ResultInfo(queryId, query, report.value, createdAt,
                                                      "reports/" + ReportFilename(query, savedAt))))
    ensures statuses[|statuses| - 1] == Error ==>
      w.Lookup(queryId) == if queryId in old(w.results) then Some(ResultJson(old(w.results)[queryId])) else None
  {
    statuses := w.ConductResearch(queryId, query, plan, execution, report, written, savedAt, createdAt);
    TraceForward(plan, execution, report, written);
    w.Expire(queryId);
  }

  /** The history is newest first and holds each stored result exactly as often as it is stored: once. */
  lemma HistorySortedPermutation(w: WebInterface)
    requires w.Valid()
    ensures NewestFirst(SortNewest(w.Stored())) && multiset(SortNewest(w.Stored())) == multiset(w.Stored())
    ensures forall i :: 0 <= i < |w.Stored()| ==> w.Stored()[i] == w.results[w.order[i]]
  {
    SortNewestSorted(w.Stored());
  }
}
