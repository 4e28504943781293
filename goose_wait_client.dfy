/** The Goose client of the kitchen-sink app: each request gets a fresh
    response id that the instruction names, the instruction goes out behind
    a fixed preamble in a body with a fresh session id, and after an ok
    POST the client waits on `/wait_for_response/<id>`. Ids, the clock and
    the server's replies are inputs; the calls issued are an output. */
module GooseWaitClient {
  import opened Wrappers
  import opened Text
  import opened Json
  import opened GooseProtocol

  /** The line put in front of every instruction this client sends. */
  const Preamble := "IMPORTANT: return results with app_response and app_error tools, you don't need to use app_ named tools (but other tools to provide data or actions are ok as needed). \n"

  const Lead := "After doing the following, call the app_response tool with response_id=\""
  const TextAsk := ", string_data=your response to the following query.\n Query:\n "
  const ListAsk := ", list_data=your response to the following query as a list of strings. Query: "
  const TableAsk := ", table_data=your response to the following query as a table."
  const ReportLead := "Call the app_error tool with this error message: "
  const ReportedLead := "Error reported: "

  /** An instruction naming `responseId`: the lead, the id in double
      quotes, then the rest. */
  function Tagged(responseId: string, rest: string): string {
    Lead + responseId + "\"" + rest
  }

  function TextMessage(responseId: string, query: string): string {
    Tagged(responseId, TextAsk + query)
  }

  function ListMessage(responseId: string, query: string): string {
    Tagged(responseId, ListAsk + query)
  }

  function TableMessage(responseId: string, columns: seq<string>, query: string): string {
    Tagged(responseId, TableAsk + TableTail(columns, query))
  }

  function WaitPath(responseId: string): string {
    "/wait_for_response/" + responseId
  }

  // ---------------------------------------------------------------- reading the id back

  /** The text before the first double quote, if there is one. */
  function UpToQuote(s: string): (r: Option<string>)
    ensures r.Some? ==> |r.value| < |s| && s[..|r.value|] == r.value && s[|r.value|] == '"' && '"' !in r.value
  {
    if s == [] then None
    else if s[0] == '"' then Some([])
    else
      match UpToQuote(s[1..])
      case None => None
      case Some(t) => Some([s[0]] + t)
  }

  /** The response id an instruction names: what stands between the lead
      and the next double quote. */
  function ResponseIdOf(message: string): Option<string> {
    if |Lead| <= |message| && message[..|Lead|] == Lead then UpToQuote(message[|Lead|..]) else None
  }

  lemma {:induction false} UpToQuoteOf(id: string, rest: string)
    requires '"' !in id
    ensures UpToQuote(id + "\"" + rest) == Some(id)
  {
    var s := id + "\"" + rest;
    if id != [] {
      assert s[1..] == id[1..] + "\"" + rest;
      UpToQuoteOf(id[1..], rest);
      assert [id[0]] + id[1..] == id;
    }
  }

  /** An id without double quotes (the generated ids are base-36 digits)
      is read back from the instruction that names it. */
  lemma ResponseIdRoundTrip(responseId: string, rest: string)
    requires '"' !in responseId
    ensures ResponseIdOf(Tagged(responseId, rest)) == Some(responseId)
  {
    var m := Tagged(responseId, rest);
    assert m == Lead + (responseId + "\"" + rest);
    assert m[..|Lead|] == Lead;
    assert m[|Lead|..] == responseId + "\"" + rest;
    UpToQuoteOf(responseId, rest);
  }

  /** Text appended to an instruction is appended to its rest. */
  lemma TaggedAppend(responseId: string, x: string, y: string)
    ensures Tagged(responseId, x + y) == Tagged(responseId, x) + y
  {
    var h := Lead + responseId + "\"";
    assert h + (x + y) == (h + x) + y;
  }

  /** The table instruction holds the serialised columns twice, each
      reading back as the columns in order, and ends with the query. */
  lemma TableMessageShape(responseId: string, columns: seq<string>, query: string)
    ensures TableShape(TableMessage(responseId, columns, query), |Tagged(responseId, TableAsk)| + |UseColumns|, columns, query)
  {
    TaggedAppend(responseId, TableAsk, TableTail(columns, query));
    TableTailShape(Tagged(responseId, TableAsk), columns, query);
  }

  // ---------------------------------------------------------------- the requests

  /** The text of the one message of the first call, when that is a POST. */
  predicate SentFirst(calls: seq<Call>, text: string) {
    |calls| >= 1 && calls[0].Post? && calls[0].path == ReplyPath && CarriesText(calls[0].body, text)
  }

  /** The GET of the wait endpoint and the reading of its reply. */
  method WaitForResponse(responseId: string, reply: Reply<Option<Value>>)
    returns (calls: seq<Call>, outcome: Outcome<Option<Value>>)
    ensures calls == [Get(WaitPath(responseId))]
    ensures outcome.Returned? <==> (reply.Response? && IsOk(reply.status)
      && reply.body.Some? && reply.body.value.Obj? && Truthy(Prop(reply.body, "success")))
    ensures outcome == InterpretWait(reply)
  {
    calls := [Get(WaitPath(responseId))];
    WaitSucceedsIff(reply);
    outcome := InterpretWait(reply);
  }

  /** The POST of the preamble and the instruction, with working directory
      `/tmp` and a fresh session id; only an ok reply leads to the wait on
      the same response id, and the wait decides the outcome. */
  method SendGooseRequestAndWait(message: string, responseId: string, sessionId: string, nowMs: nat,
                                 post: Reply<()>, wait: Reply<Option<Value>>)
    returns (calls: seq<Call>, outcome: Outcome<Option<Value>>)
    ensures |calls| >= 1 && calls[0] == Post(ReplyPath, RequestFor(Preamble + message, nowMs, Some("/tmp"), Some(sessionId)))
    ensures SentFirst(calls, Preamble + message)
    ensures Checked(post).Threw? ==> |calls| == 1 && outcome == Threw(Checked(post).message)
    ensures Checked(post).Returned? ==> calls[1..] == [Get(WaitPath(responseId))] && outcome == InterpretWait(wait)
  {
    var text := Preamble + message;
    var body := RequestFor(text, nowMs, Some("/tmp"), Some(sessionId));
    calls := [Post(ReplyPath, body)];
    match Checked(post) {
      case Threw(m) =>
        outcome := Threw(m);
      case Returned(_) =>
        var waited;
        waited, outcome := WaitForResponse(responseId, wait);
        calls := calls + waited;
    }
  }

  /** `gooseRequestText`. */
  method GooseRequestText(query: string, responseId: string, sessionId: string, nowMs: nat,
                          post: Reply<()>, wait: Reply<Option<Value>>)
    returns (calls: seq<Call>, outcome: Outcome<Option<Value>>)
    ensures SentFirst(calls, Preamble + TextMessage(responseId, query))
    ensures '"' !in responseId ==> ResponseIdOf(TextMessage(responseId, query)) == Some(responseId)
    ensures forall k :: 0 <= k < |calls| && calls[k].Get? ==> calls[k].path == WaitPath(responseId)
    ensures Checked(post).Threw? ==> outcome == Threw(Checked(post).message)
    ensures Checked(post).Returned? ==> outcome == InterpretWait(wait)
  {
    if '"' !in responseId {
      ResponseIdRoundTrip(responseId, TextAsk + query);
    }
    calls, outcome := SendGooseRequestAndWait(TextMessage(responseId, query), responseId, sessionId, nowMs, post, wait);
  }

  /** `gooseRequestList`. */
  method GooseRequestList(query: string, responseId: string, sessionId: string, nowMs: nat,
                          post: Reply<()>, wait: Reply<Option<Value>>)
    returns (calls: seq<Call>, outcome: Outcome<Option<Value>>)
    ensures SentFirst(calls, Preamble + ListMessage(responseId, query))
    ensures '"' !in responseId ==> ResponseIdOf(ListMessage(responseId, query)) == Some(responseId)
    ensures forall k :: 0 <= k < |calls| && calls[k].Get? ==> calls[k].path == WaitPath(responseId)
    ensures Checked(post).Threw? ==> outcome == Threw(Checked(post).message)
    ensures Checked(post).Returned? ==> outcome == InterpretWait(wait)
  {
    if '"' !in responseId {
      ResponseIdRoundTrip(responseId, ListAsk + query);
    }
    calls, outcome := SendGooseRequestAndWait(ListMessage(responseId, query), responseId, sessionId, nowMs, post, wait);
  }

  /** `gooseRequestTable`: columns that are missing, not an array or empty
      are refused before anything is sent. */
  method GooseRequestTable(query: string, columns: Columns, responseId: string, sessionId: string, nowMs: nat,
                           post: Reply<()>, wait: Reply<Option<Value>>)
    returns (calls: seq<Call>, outcome: Outcome<Option<Value>>)
    ensures !ColumnsGiven(columns) ==> calls == [] && outcome == Threw(ColumnsRequired)
    ensures ColumnsGiven(columns) ==> SentFirst(calls, Preamble + TableMessage(responseId, columns.names, query))
    ensures ColumnsGiven(columns) && '"' !in responseId ==>
      ResponseIdOf(TableMessage(responseId, columns.names, query)) == Some(responseId)
    ensures forall k :: 0 <= k < |calls| && calls[k].Get? ==> calls[k].path == WaitPath(responseId)
    ensures ColumnsGiven(columns) && Checked(post).Threw? ==> outcome == Threw(Checked(post).message)
    ensures ColumnsGiven(columns) && Checked(post).Returned? ==> outcome == InterpretWait(wait)
  {
    if !ColumnsGiven(columns) {
      return [], Threw(ColumnsRequired);
    }
    var message := TableMessage(responseId, columns.names, query);
    if '"' !in responseId {
      ResponseIdRoundTrip(responseId, TableAsk + TableTail(columns.names, query));
    }
    calls, outcome := SendGooseRequestAndWait(message, responseId, sessionId, nowMs, post, wait);
  }

  /** `reportError`: an empty message is refused before anything is sent;
      otherwise one POST without a session id, and an ok reply confirms
      the message. */
  method ReportError(errorMessage: string, nowMs: nat, post: Reply<()>)
    returns (calls: seq<Call>, outcome: Outcome<string>)
    ensures errorMessage == [] ==> calls == [] && outcome == Threw(ErrorMessageRequired)
    ensures errorMessage != [] ==>
      calls == [Post(ReplyPath, RequestFor(ReportLead + errorMessage, nowMs, Some("/tmp"), None))]
    ensures errorMessage != [] ==> (outcome.Returned? <==> Checked(post).Returned?)
    ensures errorMessage != [] && outcome.Returned? ==> outcome.value == ReportedLead + errorMessage
    ensures errorMessage != [] && Checked(post).Threw? ==> outcome == Threw(Checked(post).message)
  {
    if errorMessage == [] {
      return [], Threw(ErrorMessageRequired);
    }
    calls := [Post(ReplyPath, RequestFor(ReportLead + errorMessage, nowMs, Some("/tmp"), None))];
    match Checked(post) {
      case Threw(m) => outcome := Threw(m);
      case Returned(_) => outcome := Returned(ReportedLead + errorMessage);
    }
  }
}
