/** The Goose client of the example app: one session id is drawn when the
    script loads and every request carries it; each send first resets the
    wait endpoint, ignoring how that goes, then posts the instruction as it
    is, and after an ok POST waits on `/wait_for_response`. The clock and
    the server's replies are inputs; the calls issued are an output. */
module GooseAppClient {
  import opened Wrappers
  import opened Text
  import opened Json
  import opened GooseProtocol

  const TextAsk := "Return the results from the query, by calling the app_response tool with string_data parameter.\n Query:\n "
  const ListAsk := "Return the results from the query, by calling the app_response tool with the list_data parameter as a list of strings. Query: "
  const TableAsk := "Return the results from the query, by calling the app_response tool with table_data parameter"
  const ReportLead := "Call the app_error tool with this error message: "
  const ReportedLead := "Error reported: "
  const ResetPath := "/wait_for_response/reset"
  const WaitPath := "/wait_for_response"

  function TextMessage(query: string): string {
    TextAsk + query
  }

  function ListMessage(query: string): string {
    ListAsk + query
  }

  function TableMessage(columns: seq<string>, query: string): string {
    TableAsk + TableTail(columns, query)
  }

  /** The table instruction holds the serialised columns twice, each
      reading back as the columns in order, and ends with the query. */
  lemma TableMessageShape(columns: seq<string>, query: string)
    ensures TableShape(TableMessage(columns, query), |TableAsk| + |UseColumns|, columns, query)
  {
    TableTailShape(TableAsk, columns, query);
  }

  /** Every POST among `calls` carries `session`. */
  predicate InSession(calls: seq<Call>, session: string) {
    forall k :: 0 <= k < |calls| && calls[k].Post? ==> calls[k].body.sessionId == Some(session)
  }

  /** The client, holding the session id it drew when it was loaded. */
  class Client {
    const session: string

    constructor (session: string)
      ensures this.session == session
    {
      this.session := session;
    }

    /** The GET of the wait endpoint and the reading of its reply. */
    method WaitForResponse(reply: Reply<Option<Value>>)
      returns (calls: seq<Call>, outcome: Outcome<Option<Value>>)
      ensures calls == [Get(WaitPath)]
      ensures outcome.Returned? <==> (reply.Response? && IsOk(reply.status)
        && reply.body.Some? && reply.body.value.Obj? && Truthy(Prop(reply.body, "success")))
      ensures outcome == InterpretWait(reply)
    {
      calls := [Get(WaitPath)];
      WaitSucceedsIff(reply);
      outcome := InterpretWait(reply);
    }

    /** The reset, whose reply (`reset`) is ignored whatever it is, then the
        POST of the instruction unchanged in the session, then, after an ok
        reply only, the wait. */
    method SendGooseRequestAndWait(message: string, nowMs: nat,
                                   reset: Reply<()>, post: Reply<()>, wait: Reply<Option<Value>>)
      returns (calls: seq<Call>, outcome: Outcome<Option<Value>>)
      ensures |calls| >= 2 && calls[0] == Get(ResetPath)
      ensures calls[1] == Post(ReplyPath, RequestFor(message, nowMs, Some("/tmp"), Some(session)))
      ensures CarriesText(calls[1].body, message)
      ensures InSession(calls, session)
      ensures Checked(post).Threw? ==> |calls| == 2 && outcome == Threw(Checked(post).message)
      ensures Checked(post).Returned? ==> calls[2..] == [Get(WaitPath)] && outcome == InterpretWait(wait)
    {
      calls := [Get(ResetPath)];
      var body := RequestFor(message, nowMs, Some("/tmp"), Some(session));
      calls := calls + [Post(ReplyPath, body)];
      match Checked(post) {
        case Threw(m) =>
          outcome := Threw(m);
        case Returned(_) =>
          var waited;
          waited, outcome := WaitForResponse(wait);
          calls := calls + waited;
      }
    }

    /** `gooseRequestText`. */
    method GooseRequestText(query: string, nowMs: nat, reset: Reply<()>, post: Reply<()>, wait: Reply<Option<Value>>)
      returns (calls: seq<Call>, outcome: Outcome<Option<Value>>)
      ensures |calls| >= 2 && calls[1].Post? && CarriesText(calls[1].body, TextMessage(query))
      ensures InSession(calls, session)
      ensures Checked(post).Threw? ==> outcome == Threw(Checked(post).message)
      ensures Checked(post).Returned? ==> outcome == InterpretWait(wait)
    {
      calls, outcome := SendGooseRequestAndWait(TextMessage(query), nowMs, reset, post, wait);
    }

    /** `gooseRequestList`. */
    method GooseRequestList(query: string, nowMs: nat, reset: Reply<()>, post: Reply<()>, wait: Reply<Option<Value>>)
      returns (calls: seq<Call>, outcome: Outcome<Option<Value>>)
      ensures |calls| >= 2 && calls[1].Post? && CarriesText(calls[1].body, ListMessage(query))
      ensures InSession(calls, session)
      ensures Checked(post).Threw? ==> outcome == Threw(Checked(post).message)
      ensures Checked(post).Returned? ==> outcome == InterpretWait(wait)
    {
      calls, outcome := SendGooseRequestAndWait(ListMessage(query), nowMs, reset, post, wait);
    }

    /** `gooseRequestTable`: columns that are missing, not an array or
        empty are refused before any call, the reset included. */
    method GooseRequestTable(query: string, columns: Columns, nowMs: nat,
                             reset: Reply<()>, post: Reply<()>, wait: Reply<Option<Value>>)
      returns (calls: seq<Call>, outcome: Outcome<Option<Value>>)
      ensures !ColumnsGiven(columns) ==> calls == [] && outcome == Threw(ColumnsRequired)
      ensures ColumnsGiven(columns) ==>
        |calls| >= 2 && calls[1].Post? && CarriesText(calls[1].body, TableMessage(columns.names, query))
      ensures InSession(calls, session)
      ensures ColumnsGiven(columns) && Checked(post).Threw? ==> outcome == Threw(Checked(post).message)
      ensures ColumnsGiven(columns) && Checked(post).Returned? ==> outcome == InterpretWait(wait)
    {
      if !ColumnsGiven(columns) {
        return [], Threw(ColumnsRequired);
      }
      calls, outcome := SendGooseRequestAndWait(TableMessage(columns.names, query), nowMs, reset, post, wait);
    }

    /** `reportError`: an empty message is refused before anything is
        sent; otherwise one POST in the session (no reset, no wait), and an
        ok reply confirms the message. */
    method ReportError(errorMessage: string, nowMs: nat, post: Reply<()>)
      returns (calls: seq<Call>, outcome: Outcome<string>)
      ensures errorMessage == [] ==> calls == [] && outcome == Threw(ErrorMessageRequired)
      ensures errorMessage != [] ==>
        calls == [Post(ReplyPath, RequestFor(ReportLead + errorMessage, nowMs, Some("/tmp"), Some(session)))]
      ensures InSession(calls, session)
      ensures errorMessage != [] ==> (outcome.Returned? <==> Checked(post).Returned?)
      ensures errorMessage != [] && outcome.Returned? ==> outcome.value == ReportedLead + errorMessage
      ensures errorMessage != [] && Checked(post).Threw? ==> outcome == Threw(Checked(post).message)
    {
      if errorMessage == [] {
        return [], Threw(ErrorMessageRequired);
      }
      calls := [Post(ReplyPath, RequestFor(ReportLead + errorMessage, nowMs, Some("/tmp"), Some(session)))];
      match Checked(post) {
        case Threw(m) => outcome := Threw(m);
        case Returned(_) => outcome := Returned(ReportedLead + errorMessage);
      }
    }
  }
}
