/**
 The AI query page: a capped, newest-first history of questions, the validation gate in front of a
 request, the prompt suffix of advanced mode, and the classification of an answer into text, chart
 or table.
 */
module AiQuery {
  import opened Options
  import opened Text

  /** A parsed JSON value; `JSON.parse` itself is left abstract. */
  datatype Json =
    | JNull
    | JBool(b: bool)
    | JNumber(n: int)
    | JString(s: string)
    | JArray(items: seq<Json>)
    | JObject(fields: map<string, Json>)

  /** What the page shows for an answer. */
  datatype AnalysisResult =
    | TextResult(content: string)
    | ChartResult(content: string, chartData: seq<Json>)
    | TableResult(content: string, headers: seq<Json>, tableRows: seq<Json>)

  const Open := "```json"
  const Close := "```"

  /** `parsed.type === 'chart' && Array.isArray(parsed.data)`. */
  predicate IsChart(j: Json) {
    j.JObject? && "type" in j.fields && j.fields["type"] == JString("chart")
    && "data" in j.fields && j.fields["data"].JArray?
  }

  /** `parsed.type === 'table'` with array `headers` and array `rows`. */
  predicate IsTable(j: Json) {
    j.JObject? && "type" in j.fields && j.fields["type"] == JString("table")
    && "headers" in j.fields && j.fields["headers"].JArray?
    && "rows" in j.fields && j.fields["rows"].JArray?
  }

  /**
   The first fenced block: where the first `` ```json `` starts and where the first `` ``` `` after it
   starts. Both the capturing match and the replacement in the page stop at that closing fence.
   */
  function FencedBlock(text: string): (r: Option<(nat, nat)>)
    ensures r.Some? ==> OccursAt(text, Open, r.value.0) && r.value.0 + |Open| <= r.value.1 && OccursAt(text, Close, r.value.1)
    ensures r.Some? ==> forall k :: 0 <= k < r.value.0 ==> !OccursAt(text, Open, k)
    ensures r.Some? ==> forall k :: r.value.0 + |Open| <= k < r.value.1 ==> !OccursAt(text, Close, k)
    ensures r.None? ==> !Contains(text, Open) || IndexOf(text, Close, IndexOf(text, Open, 0).value + |Open|).None?
  {
    match IndexOf(text, Open, 0)
    case None => None
    case Some(i) =>
      match IndexOf(text, Close, i + |Open|)
      case None => None
      case Some(j) => Some((i, j))
  }

  /** The captured group of `` /```json\s*([\s\S]*?)\s*```/ ``: the block's inside without surrounding white space. */
  function Capture(text: string): Option<string> {
    match FencedBlock(text)
    case None => None
    case Some((i, j)) => Some(Trim(text[i + |Open|..j]))
  }

  /** `` text.replace(/```json[\s\S]*?```/, '') ``: the text with its first fenced block cut out. */
  function WithoutBlock(text: string): (r: string)
    ensures FencedBlock(text).None? ==> r == text
  {
    match FencedBlock(text)
    case None => text
    case Some((i, j)) => text[..i] + text[j + |Close|..]
  }

  /**
   `tryParseResult`: an answer becomes a chart or a table only when it holds a fenced block whose
   non-empty inside parses to a chart or table object; the content is then the rest of the answer,
   trimmed. Everything else, a parse failure included, is the whole answer as text.
   */
  function TryParseResult(text: string, parse: string -> Option<Json>): (r: AnalysisResult)
    ensures !Contains(text, Open) ==> r == TextResult(text)
    ensures r.TextResult? ==> r.content == text
    ensures !r.TextResult? ==> r.content == Trim(WithoutBlock(text))
    ensures r.ChartResult? <==>
      Capture(text).Some? && Capture(text).value != "" && parse(Capture(text).value).Some?
      && IsChart(parse(Capture(text).value).value)
    ensures r.ChartResult? ==> r.chartData == parse(Capture(text).value).value.fields["data"].items
    ensures r.TableResult? <==>
      Capture(text).Some? && Capture(text).value != "" && parse(Capture(text).value).Some?
      && IsTable(parse(Capture(text).value).value)
    ensures r.TableResult? ==>
      r.headers == parse(Capture(text).value).value.fields["headers"].items
      && r.tableRows == parse(Capture(text).value).value.fields["rows"].items
  {
    if !Contains(text, Open) then TextResult(text)
    else
      match Capture(text)
      case None => TextResult(text)
      case Some(c) =>
        if c == "" then TextResult(text)
        else
          match parse(c)
          case None => TextResult(text)
          case Some(v) =>
            if IsChart(v) then ChartResult(Trim(WithoutBlock(text)), v.fields["data"].items)
            else if IsTable(v) then TableResult(Trim(WithoutBlock(text)), v.fields["headers"].items, v.fields["rows"].items)
            else TextResult(text)
  }

  /**
   An answer built as `prefix`, a fenced block around `body`, then `suffix` gives back its parts: the
   capture is the trimmed body and cutting the block leaves `prefix + suffix`, provided no earlier
   `` ```json `` and no `` ``` `` inside the body.
   */
  lemma FenceRoundTrip(prefix: string, body: string, suffix: string)
    requires var t := prefix + Open + body + Close + suffix;
      forall k :: 0 <= k < |prefix| ==> !OccursAt(t, Open, k)
    requires var t := prefix + Open + body + Close + suffix;
      forall k :: |prefix| + |Open| <= k < |prefix| + |Open| + |body| ==> !OccursAt(t, Close, k)
    ensures var t := prefix + Open + body + Close + suffix;
      FencedBlock(t) == Some((|prefix|, |prefix| + |Open| + |body|))
      && Capture(t) == Some(Trim(body))
      && WithoutBlock(t) == prefix + suffix
  {
    var t := prefix + Open + body + Close + suffix;
    var i := |prefix|;
    var j := |prefix| + |Open| + |body|;
    assert t[i..i + |Open|] == Open;
    assert OccursAt(t, Open, i);
    IndexOfFirst(t, Open, 0, i);
    assert t[j..j + |Close|] == Close;
    assert OccursAt(t, Close, j);
    IndexOfFirst(t, Close, i + |Open|, j);
    assert t[i + |Open|..j] == body;
    assert t[..i] == prefix;
    assert t[j + |Close|..] == suffix;
  }

  /** A well-formed chart answer is shown as that chart, with the text around the block as its content. */
  lemma ChartRoundTrip(prefix: string, body: string, suffix: string, parse: string -> Option<Json>)
    requires var t := prefix + Open + body + Close + suffix;
      forall k :: 0 <= k < |prefix| ==> !OccursAt(t, Open, k)
    requires var t := prefix + Open + body + Close + suffix;
      forall k :: |prefix| + |Open| <= k < |prefix| + |Open| + |body| ==> !OccursAt(t, Close, k)
    requires Trim(body) != "" && parse(Trim(body)).Some? && IsChart(parse(Trim(body)).value)
    ensures TryParseResult(prefix + Open + body + Close + suffix, parse)
      == ChartResult(Trim(prefix + suffix), parse(Trim(body)).value.fields["data"].items)
  {
    FenceRoundTrip(prefix, body, suffix);
  }

  /** One question asked, with the time it was asked. */
  datatype HistoryEntry = HistoryEntry(question: string, timestamp: int)

  const HistoryLimit: nat := 10

  function Min(a: nat, b: nat): nat {
    if a < b then a else b
  }

  /** `addToHistory`: the new entry goes first and only the ten newest entries are kept. */
  function AddToHistory(history: seq<HistoryEntry>, e: HistoryEntry): (r: seq<HistoryEntry>)
    ensures |r| == Min(|history| + 1, HistoryLimit)
    ensures r[0] == e
    ensures forall i :: 1 <= i < |r| ==> r[i] == history[i - 1]
  {
    ([e] + history)[..Min(|history| + 1, HistoryLimit)]
  }

  /** The history after recording `es` in order. */
  function Recorded(history: seq<HistoryEntry>, es: seq<HistoryEntry>): seq<HistoryEntry>
    decreases |es|
  {
    if es == [] then history else AddToHistory(Recorded(history, es[..|es| - 1]), es[|es| - 1])
  }

  function Reverse<T>(s: seq<T>): (r: seq<T>)
    ensures |r| == |s|
    decreases |s|
  {
    if s == [] then [] else [s[|s| - 1]] + Reverse(s[..|s| - 1])
  }

  /**
   Whatever is asked, the history is the newest entries first, cut at ten: it is the asked entries in
   reverse followed by the earlier history, truncated.
   */
  lemma {:induction false} RecordedNewestFirst(history: seq<HistoryEntry>, es: seq<HistoryEntry>)
    requires |history| <= HistoryLimit
    ensures Recorded(history, es) == (Reverse(es) + history)[..Min(|es| + |history|, HistoryLimit)]
    decreases |es|
  {
    if es != [] {
      var init := es[..|es| - 1];
      var e := es[|es| - 1];
      RecordedNewestFirst(history, init);
      var before := (Reverse(init) + history)[..Min(|init| + |history|, HistoryLimit)];
      assert Reverse(es) == [e] + Reverse(init);
      var n := Min(|es| + |history|, HistoryLimit);
      assert Recorded(history, es) == ([e] + before)[..n];
      assert ([e] + before)[..n] == ([e] + Reverse(init) + history)[..n] by {
        forall k | 0 <= k < n
          ensures ([e] + before)[k] == ([e] + Reverse(init) + history)[k]
        {
          if k > 0 {
            assert ([e] + before)[k] == before[k - 1];
          }
        }
      }
    }
  }

  datatype Mode = Standard | Advanced

  /** The state of the page the handlers touch. */
  datatype Page = Page(
    question: string,
    csvText: string,
    answer: Option<string>,
    result: Option<AnalysisResult>,
    loading: bool,
    error: Option<string>,
    mode: Mode,
    historyVisible: bool,
    history: seq<HistoryEntry>)

  /** What is sent to the server, with the display mode the request was made in. */
  datatype Request = Request(prompt: string, csvText: string, mode: Mode)

  const MissingInputMessage := "Please upload a CSV file and type your question."
  const AdvancedSuffix := " If possible, provide your answer with visualization data in JSON format. For charts, use format: {\"type\":\"chart\",\"data\":[{key:value}]}. For tables, use format: {\"type\":\"table\",\"headers\":[...],\"rows\":[[...]]}"
  const UnknownServerError := "Unknown error from server"
  const NoResponseMessage := "Failed to get a response."

  /** The prompt: the question itself, followed in advanced mode by the request for chart or table data. */
  function Prompt(question: string, mode: Mode): (r: string)
    ensures |question| <= |r| && r[..|question|] == question
    ensures mode == Standard ==> |r| == |question|
    ensures mode == Advanced ==> r[|question|..] == AdvancedSuffix
  {
    match mode
    case Standard => question
    case Advanced => question + AdvancedSuffix
  }

  /**
   `handleAsk` up to the request: a blank question or a missing CSV only sets the error; otherwise the
   answer and result are cleared, loading starts, the question (not the prompt) is recorded and the
   request goes out in the current mode.
   */
  function Ask(p: Page, now: int): (r: (Page, Option<Request>))
    ensures r.1.None? <==> IsBlank(p.question) || p.csvText == ""
    ensures r.1.None? ==> r.0 == p.(error := Some(MissingInputMessage))
    ensures r.1.Some? ==> r.1.value == Request(Prompt(p.question, p.mode), p.csvText, p.mode)
    ensures r.1.Some? ==>
      r.0 == p.(error := None, loading := true, answer := None, result := None,
                history := AddToHistory(p.history, HistoryEntry(p.question, now)))
  {
    if Trim(p.question) == "" || p.csvText == "" then (p.(error := Some(MissingInputMessage)), None)
    else
      (p.(error := None, loading := true, answer := None, result := None,
          history := AddToHistory(p.history, HistoryEntry(p.question, now))),
       Some(Request(Prompt(p.question, p.mode), p.csvText, p.mode)))
  }

  /**
   How a request ends: an answer, an error response carrying `error` (empty when the body had none),
   or a thrown error with `message`.
   */
  datatype Reply = Answered(text: string) | ServerError(error: string) | Thrown(message: string)

  /** The message shown for a failed request; never empty. */
  function ErrorText(reply: Reply): (r: string)
    requires !reply.Answered?
    ensures r != ""
    ensures reply.ServerError? && reply.error != "" ==> r == reply.error
    ensures reply.Thrown? && reply.message != "" ==> r == reply.message
  {
    match reply
    case ServerError(e) => if e != "" then e else UnknownServerError
    case Thrown(m) => if m != "" then m else NoResponseMessage
  }

  /**
   The rest of `handleAsk`: loading always ends; an answer is stored and, when the request was made
   in advanced mode, classified; a failure only sets the error message.
   */
  function Receive(p: Page, req: Request, reply: Reply, parse: string -> Option<Json>): (r: Page)
    ensures !r.loading
    ensures r.history == p.history && r.question == p.question && r.mode == p.mode
    ensures reply.Answered? ==> r.answer == Some(reply.text) && r.error == p.error
    ensures reply.Answered? && req.mode == Advanced ==> r.result == Some(TryParseResult(reply.text, parse))
    ensures reply.Answered? && req.mode == Standard ==> r.result == p.result
    ensures !reply.Answered? ==> r == p.(loading := false, error := Some(ErrorText(reply)))
  {
    match reply
    case Answered(text) =>
      var shown := p.(answer := Some(text), loading := false);
      if req.mode == Advanced then shown.(result := Some(TryParseResult(text, parse))) else shown
    case _ => p.(loading := false, error := Some(ErrorText(reply)))
  }

  /** `clearHistory`: the history is emptied and hidden, nothing else changes. */
  function ClearHistory(p: Page): (r: Page)
    ensures r.history == [] && !r.historyVisible
    ensures r.(history := p.history, historyVisible := p.historyVisible) == p
  {
    p.(history := [], historyVisible := false)
  }

  /**
   A successful advanced request shows the classified answer even when the mode was switched back
   while it was in flight, and the question asked heads the history.
   */
  lemma AskThenAnswer(p: Page, now: int, text: string, parse: string -> Option<Json>)
    requires !IsBlank(p.question) && p.csvText != "" && p.mode == Advanced
    ensures var (pending, req) := Ask(p, now);
      req.Some?
      && var shown := Receive(pending.(mode := Standard), req.value, Answered(text), parse);
      shown.result == Some(TryParseResult(text, parse)) && shown.answer == Some(text)
      && shown.error.None? && shown.history[0] == HistoryEntry(p.question, now)
  {
  }
}
