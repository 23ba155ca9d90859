/**
 * The LLM client (models/llm_client.py): default resolution for a
 * completion, the provider check, and what `classify`, `summarize`,
 * `extract_structured_data` and `generate_questions` make of the reply.
 *
 * The Ollama endpoint is an oracle from the request to its outcome, and
 * `json.loads` is an oracle from the reply text to a value (`None` when
 * the text is not JSON). Prompt wording is not modelled: a request carries
 * the inputs its prompts are built from.
 */
module Llm {
  import opened Wrappers
  import opened Values
  import Text

  const UnsupportedProvider := "Error: Unsupported LLM provider"

  /** What a prompt pair is built from. */
  datatype Prompt =
    | Plain(system: string, user: string)
    | ClassifyPrompt(text: string, categories: seq<string>, explanation: bool)
    | SummarizePrompt(text: string, maxLength: int, focusInstruction: string)
    | ExtractPrompt(text: string, schema: Json)
    | QuestionsPrompt(text: string, count: int)

  /** The body posted to `<api_base>/generate`. */
  datatype Request = Request(endpoint: string, model: string, prompt: Prompt, temperature: real, maxTokens: int)

  /** A completed reply's `response` field, a non-200 status, or the text of an exception. */
  datatype Outcome = Response(text: string) | Status(code: int) | Raised(message: string)

  type Ollama = Request -> Outcome
  type JsonLoads = string -> Option<Json>

  /** `value or default`: a missing value or the type's zero takes the default. */
  function OrDefault<T(==)>(value: Option<T>, zero: T, default: T): (r: T)
    ensures value.Some? && value.value != zero ==> r == value.value
    ensures value.None? || value.value == zero ==> r == default
  {
    if value.Some? && value.value != zero then value.value else default
  }

  /** The text `_complete_ollama` returns for each outcome. */
  function OutcomeText(o: Outcome): (r: string)
    ensures o.Response? ==> r == o.text
    ensures o.Status? ==> r == "Error: LLM request failed with status " + Text.IntToString(o.code)
    ensures o.Raised? ==> Text.StartsWith(r, "Error: ") && r == "Error: " + o.message
  {
    match o
    case Response(t) => t
    case Status(c) => "Error: LLM request failed with status " + Text.IntToString(c)
    case Raised(m) =>
      assert ("Error: " + m)[..7] == "Error: ";
      "Error: " + m
  }

  /** `classify`'s answer when the reply is not JSON. */
  function ClassifyFallback(categories: seq<string>): (r: Json)
    ensures r.JObj? && |r.fields| == 3
    ensures Get(r.fields, "category") == Some(JStr(if categories != [] then categories[0] else "unknown"))
    ensures Get(r.fields, "confidence") == Some(JFloat(0.0))
  {
    JObj([("category", JStr(if categories != [] then categories[0] else "unknown")),
          ("confidence", JFloat(0.0)),
          ("explanation", JStr("Failed to parse LLM response"))])
  }

  /** The focus sentence of the summary prompt: empty without a (non-empty) focus. */
  function FocusInstruction(focus: Option<string>): (r: string)
    ensures focus.None? || focus.value == "" <==> r == ""
  {
    if focus.Some? && focus.value != "" then "Focus on " + focus.value + "." else ""
  }

  /** The thirteen words a fallback line may start with to count as a question. */
  const QuestionWords: seq<string> :=
    ["What", "How", "Why", "When", "Where", "Which", "Who", "Is", "Are", "Can", "Could", "Should", "Would"]

  /** `line.startswith(words)` for a tuple of words. */
  predicate StartsWithAny(line: string, words: seq<string>) {
    words != [] && (Text.StartsWith(line, words[0]) || StartsWithAny(line, words[1..]))
  }

  predicate StartsWithQuestionWord(line: string) {
    StartsWithAny(line, QuestionWords)
  }

  /** A stripped line the fallback keeps: non-empty and ending in "?" or starting with a question word. */
  predicate LooksLikeQuestion(line: string) {
    line != [] && (line[|line| - 1] == '?' || StartsWithQuestionWord(line))
  }

  /** The stripped lines that look like questions, in order. */
  function QuestionLines(lines: seq<string>): (r: seq<string>)
    ensures |r| <= |lines|
    ensures forall i :: 0 <= i < |r| ==> LooksLikeQuestion(r[i])
  {
    if lines == [] then []
    else
      var front := QuestionLines(lines[..|lines| - 1]);
      var line := Text.Strip(lines[|lines| - 1]);
      if LooksLikeQuestion(line) then front + [line] else front
  }

  /** A line is kept exactly when it is the strip of some input line and looks like a question. */
  lemma {:induction false} QuestionLinesMembership(lines: seq<string>, q: string)
    ensures q in QuestionLines(lines) <==> exists k :: 0 <= k < |lines| && q == Text.Strip(lines[k]) && LooksLikeQuestion(q)
  {
    if lines != [] {
      var front := lines[..|lines| - 1];
      QuestionLinesMembership(front, q);
      if q in QuestionLines(lines) && q !in QuestionLines(front) {
        assert q == Text.Strip(lines[|lines| - 1]);
      }
      if exists k :: 0 <= k < |lines| && q == Text.Strip(lines[k]) && LooksLikeQuestion(q) {
        var k :| 0 <= k < |lines| && q == Text.Strip(lines[k]) && LooksLikeQuestion(q);
        if k < |lines| - 1 {
          assert front[k] == lines[k];
        }
      }
      Text.SnocParts(lines);
    }
  }

  /** Every kept line is already stripped. */
  lemma {:induction false} QuestionLinesStripped(lines: seq<string>, i: int)
    requires 0 <= i < |QuestionLines(lines)|
    ensures Text.Strip(QuestionLines(lines)[i]) == QuestionLines(lines)[i]
  {
    var q := QuestionLines(lines)[i];
    assert q in QuestionLines(lines);
    QuestionLinesMembership(lines, q);
    var k :| 0 <= k < |lines| && q == Text.Strip(lines[k]) && LooksLikeQuestion(q);
    Text.StripUnchanged(q);
  }

  /** The fallback: the question-like lines of the reply, at most `count` of them (Python's slice). */
  function FallbackQuestions(reply: string, count: int): (r: seq<string>)
    ensures count >= 0 ==> |r| <= count
    ensures |r| <= |QuestionLines(Text.Split(reply, '\n'))|
    ensures r == QuestionLines(Text.Split(reply, '\n'))[..|r|]
    ensures var n := |QuestionLines(Text.Split(reply, '\n'))|;
      && (count >= 0 ==> |r| == (if count < n then count else n))
      && (count < 0 ==> |r| == (if n + count > 0 then n + count else 0))
  {
    var found := QuestionLines(Text.Split(reply, '\n'));
    if found == [] then [] else Text.PyTake(found, count)
  }

  /** `generate_questions`' answer for a reply: a JSON list is cut to `count`, other JSON gives nothing. */
  function Questions(reply: string, count: int, loads: JsonLoads): (r: seq<Json>)
    ensures count >= 0 ==> |r| <= count
    ensures loads(reply).Some? && loads(reply).value.JList? ==> r == Text.PyTake(loads(reply).value.items, count)
    ensures loads(reply).None? ==>
      var found := FallbackQuestions(reply, count);
      |r| == |found| && forall i :: 0 <= i < |r| ==> r[i] == JStr(found[i])
  {
    match loads(reply)
    case Some(JList(items)) => Text.PyTake(items, count)
    case Some(_) => []
    case None => Strings(FallbackQuestions(reply, count))
  }

  /** JSON that is not a list yields no questions, whatever it holds. */
  lemma NonListNoQuestions(reply: string, count: int, loads: JsonLoads)
    requires loads(reply).Some? && !loads(reply).value.JList?
    ensures Questions(reply, count, loads) == []
  {
  }

  /** One more line extends the kept questions by its strip, if that looks like a question. */
  lemma QuestionLinesStep(lines: seq<string>, i: int)
    requires 0 <= i < |lines|
    ensures var line := Text.Strip(lines[i]);
      QuestionLines(lines[..i + 1]) ==
        if LooksLikeQuestion(line) then QuestionLines(lines[..i]) + [line] else QuestionLines(lines[..i])
  {
    assert lines[..i + 1][..i] == lines[..i] && lines[..i + 1][i] == lines[i];
  }

  /** The fallback loop: strips each line and appends the question-like ones. */
  method ExtractQuestions(lines: seq<string>) returns (found: seq<string>)
    ensures found == QuestionLines(lines)
  {
    found := [];
    for i := 0 to |lines|
      invariant found == QuestionLines(lines[..i])
    {
      var line := Text.Strip(lines[i]);
      QuestionLinesStep(lines, i);
      if LooksLikeQuestion(line) {
        found := found + [line];
      }
    }
    assert lines[..|lines|] == lines;
  }

  class LlmClient {
    var provider: string
    var model: string
    var apiBase: string
    var defaultTemperature: real
    var defaultMaxTokens: int
    var session: bool

    /** The configured values, each with its default. */
    constructor (providerSetting: Option<string>, modelSetting: Option<string>, base: Option<string>,
                 temperature: Option<real>, maxTokens: Option<int>)
      ensures provider == providerSetting.GetOr("ollama") && model == modelSetting.GetOr("llama3.2")
      ensures apiBase == base.GetOr("http://localhost:11434/api")
      ensures defaultTemperature == temperature.GetOr(0.7) && defaultMaxTokens == maxTokens.GetOr(4000)
      ensures !session
    {
      provider := providerSetting.GetOr("ollama");
      model := modelSetting.GetOr("llama3.2");
      apiBase := base.GetOr("http://localhost:11434/api");
      defaultTemperature := temperature.GetOr(0.7);
      defaultMaxTokens := maxTokens.GetOr(4000);
      session := false;
    }

    method Initialize()
      modifies this`session
      ensures session
    {
      if !session {
        session := true;
      }
    }

    method Close()
      modifies this`session
      ensures !session
    {
      session := false;
    }

    /** The request `complete` sends once the defaults are resolved. */
    function RequestFor(prompt: Prompt, maxTokens: Option<int>, temperature: Option<real>): (r: Request)
      reads this
      ensures r.endpoint == apiBase + "/generate" && r.model == model && r.prompt == prompt
      ensures r.maxTokens == OrDefault(maxTokens, 0, defaultMaxTokens)
      ensures r.temperature == OrDefault(temperature, 0.0, defaultTemperature)
    {
      Request(apiBase + "/generate", model, prompt, OrDefault(temperature, 0.0, defaultTemperature),
              OrDefault(maxTokens, 0, defaultMaxTokens))
    }

    /** The text `complete` returns. */
    function Completion(prompt: Prompt, maxTokens: Option<int>, temperature: Option<real>, ollama: Ollama): (r: string)
      reads this
      ensures provider != "ollama" ==> r == UnsupportedProvider
      ensures provider == "ollama" ==> r == OutcomeText(ollama(RequestFor(prompt, maxTokens, temperature)))
    {
      if provider == "ollama" then OutcomeText(ollama(RequestFor(prompt, maxTokens, temperature)))
      else UnsupportedProvider
    }

    /** `complete`: opens the session, resolves the defaults and asks Ollama, the only supported provider. */
    method Complete(prompt: Prompt, maxTokens: Option<int>, temperature: Option<real>, ollama: Ollama)
      returns (text: string)
      modifies this`session
      ensures session
      ensures text == Completion(prompt, maxTokens, temperature, ollama)
    {
      Initialize();
      var tokens := if maxTokens.Some? && maxTokens.value != 0 then maxTokens.value else defaultMaxTokens;
      var temp := if temperature.Some? && temperature.value != 0.0 then temperature.value else defaultTemperature;
      if provider == "ollama" {
        var outcome := ollama(Request(apiBase + "/generate", model, prompt, temp, tokens));
        text := OutcomeText(outcome);
      } else {
        text := UnsupportedProvider;
      }
    }

    /** `classify` at temperature 0.2: the parsed reply, or the fallback naming the first category. */
    method Classify(text: string, categories: seq<string>, explanation: bool, ollama: Ollama, loads: JsonLoads)
      returns (result: Json)
      modifies this`session
      ensures session
      ensures var reply := Completion(ClassifyPrompt(text, categories, explanation), None, Some(0.2), ollama);
        result == (if loads(reply).Some? then loads(reply).value else ClassifyFallback(categories))
    {
      var reply := Complete(ClassifyPrompt(text, categories, explanation), None, Some(0.2), ollama);
      var parsed := loads(reply);
      if parsed.Some? {
        result := parsed.value;
      } else {
        result := ClassifyFallback(categories);
      }
    }

    /** `summarize` at temperature 0.3 with a budget of twice `max_length` tokens. */
    method Summarize(text: string, maxLength: int, focus: Option<string>, ollama: Ollama) returns (summary: string)
      modifies this`session
      ensures session
      ensures summary == Completion(SummarizePrompt(text, maxLength, FocusInstruction(focus)), Some(2 * maxLength), Some(0.3), ollama)
    {
      Initialize();
      summary := Complete(SummarizePrompt(text, maxLength, FocusInstruction(focus)), Some(maxLength * 2), Some(0.3), ollama);
    }

    /** `extract_structured_data` at temperature 0.2: the parsed reply, or an error record. */
    method ExtractStructuredData(text: string, schema: Json, ollama: Ollama, loads: JsonLoads) returns (result: Json)
      modifies this`session
      ensures session
      ensures var reply := Completion(ExtractPrompt(text, schema), None, Some(0.2), ollama);
        result == loads(reply).GetOr(JObj([("error", JStr("Failed to parse extraction result"))]))
    {
      Initialize();
      var reply := Complete(ExtractPrompt(text, schema), None, Some(0.2), ollama);
      result := loads(reply).GetOr(JObj([("error", JStr("Failed to parse extraction result"))]));
    }

    /** `generate_questions` at temperature 0.7. */
    method GenerateQuestions(text: string, count: int, ollama: Ollama, loads: JsonLoads) returns (questions: seq<Json>)
      modifies this`session
      ensures session
      ensures questions == Questions(Completion(QuestionsPrompt(text, count), None, Some(0.7), ollama), count, loads)
    {
      Initialize();
      var reply := Complete(QuestionsPrompt(text, count), None, Some(0.7), ollama);
      match loads(reply)
      case Some(JList(items)) =>
        questions := Text.PyTake(items, count);
      case Some(_) =>
        questions := [];
      case None =>
        var found := ExtractQuestions(Text.Split(reply, '\n'));
        questions := if found == [] then [] else Strings(Text.PyTake(found, count));
    }
  }

  /** A summary of length 0 asks for the default token budget, since a zero budget counts as unset. */
  lemma ZeroLengthSummaryBudget(configured: int)
    ensures OrDefault(Some(2 * 0), 0, configured) == configured
  {
  }

  /** An explicit temperature of 0.0 is replaced by the default as well. */
  lemma ZeroTemperatureIsDefault(configured: real)
    ensures OrDefault(Some(0.0), 0.0, configured) == configured
  {
  }
}
