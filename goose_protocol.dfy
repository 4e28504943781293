/** What the three Goose clients share: the one-message request body they
    post to `/reply`, the outcome of a `fetch`, the check of `response.ok`,
    the reading of the wait endpoint's JSON result, and the table
    instruction built around `JSON.stringify(columns)`. */
module GooseProtocol {
  import opened Wrappers
  import opened Text
  import opened Json

  /** One `{type, text}` content block. */
  datatype ContentBlock = ContentBlock(kind: string, text: string)

  /** One `{role, created, content}` message. */
  datatype ChatMessage = ChatMessage(role: string, created: nat, content: seq<ContentBlock>)

  /** The posted body. `None` is a property that is absent (or `undefined`,
      which `JSON.stringify` leaves out alike). */
  datatype RequestBody = RequestBody(messages: seq<ChatMessage>, sessionWorkingDir: Option<string>, sessionId: Option<string>)

  /** A request a client issues: the POST to the reply endpoint, or a GET. */
  datatype Call = Post(path: string, body: RequestBody) | Get(path: string)

  /** What a `fetch` settles to: a rejection (the network failed) or a
      response with its status and body. */
  datatype Reply<B> = Rejected(reason: string) | Response(status: nat, body: B)

  /** The columns argument of a table request: absent (`undefined` or
      `null`), some value that is not an array, or an array of names. */
  datatype Columns = Missing | NotAnArray | Names(names: seq<string>)

  const ReplyPath := "/reply"
  const UnknownWaitError := "Unknown error waiting for response"
  const ColumnsRequired := "Column names are required for table requests"
  const ErrorMessageRequired := "Error message is required"

  /** The engine's own messages when the wait result is not JSON text, or
      is the JSON `null` whose `success` cannot be read. Their wording is
      not fixed by the language, so these stand in for it. */
  const NotJsonError := "SyntaxError: response body is not valid JSON"
  const NullResultError := "TypeError: cannot read property 'success' of null"

  /** `Math.floor(Date.now() / 1000)`: whole seconds of a clock reading in
      milliseconds. */
  function UnixSeconds(nowMs: nat): (s: nat)
    ensures s * 1000 <= nowMs < s * 1000 + 1000
  {
    nowMs / 1000
  }

  /** `b` holds one message, from the user, with one text block carrying
      `text`. */
  predicate CarriesText(b: RequestBody, text: string) {
    |b.messages| == 1 && b.messages[0].role == "user" && b.messages[0].content == [ContentBlock("text", text)]
  }

  /** The body every client builds around its message. */
  function RequestFor(text: string, nowMs: nat, workingDir: Option<string>, sessionId: Option<string>): (b: RequestBody)
    ensures CarriesText(b, text)
    ensures b.messages[0].created * 1000 <= nowMs < b.messages[0].created * 1000 + 1000
    ensures b.sessionWorkingDir == workingDir && b.sessionId == sessionId
  {
    RequestBody([ChatMessage("user", UnixSeconds(nowMs), [ContentBlock("text", text)])], workingDir, sessionId)
  }

  /** `response.ok`: a status in the range 200 to 299. */
  predicate IsOk(status: nat) {
    200 <= status <= 299
  }

  const HttpErrorPrefix := "HTTP error! Status: "

  /** The message thrown for a response that is not ok; the status can be
      read back from it. */
  function HttpError(status: nat): (m: string)
    ensures |HttpErrorPrefix| < |m| && m[..|HttpErrorPrefix|] == HttpErrorPrefix
    ensures var d := m[|HttpErrorPrefix|..]; IsDigits(d) && ParseNat(d) == status
  {
    ParseNatToString(status);
    var m := HttpErrorPrefix + NatToString(status);
    assert m[|HttpErrorPrefix|..] == NatToString(status);
    m
  }

  /** The statuses of two distinct HTTP errors differ: the message names
      the status. */
  lemma HttpErrorInjective(a: nat, b: nat)
    requires HttpError(a) == HttpError(b)
    ensures a == b
  {
    var p := |HttpErrorPrefix|;
    assert HttpError(a)[p..] == HttpError(b)[p..];
  }

  /** A fetch followed by the `!response.ok` check: a rejection is passed
      on, a response that is not ok throws the HTTP error, any other
      response goes on with its body. */
  function Checked<B>(reply: Reply<B>): (o: Outcome<B>)
    ensures reply.Rejected? ==> o == Threw(reply.reason)
    ensures reply.Response? && !IsOk(reply.status) ==> o == Threw(HttpError(reply.status))
    ensures o.Returned? <==> reply.Response? && IsOk(reply.status)
    ensures o.Returned? ==> o.value == reply.body
  {
    match reply
    case Rejected(reason) => Threw(reason)
    case Response(status, body) => if IsOk(status) then Returned(body) else Threw(HttpError(status))
  }

  /** The parsed wait result turned into the request's outcome (`None` for
      a body that is not JSON): a truthy `success` gives `data` (`None`
      when there is none); otherwise the error is thrown with the text of
      a truthy `error`, or with the fixed fallback. */
  function WaitResult(json: Option<Value>): (o: Outcome<Option<Value>>)
    ensures json.None? ==> o == Threw(NotJsonError)
    ensures json == Some(Null) ==> o == Threw(NullResultError)
    ensures json.Some? && json.value != Null ==>
      && (o.Returned? <==> Truthy(Prop(json, "success")))
      && (o.Returned? ==> o.value == Prop(json, "data"))
      && (o.Threw? && Truthy(Prop(json, "error")) ==> o.message == JsString(Prop(json, "error").value))
      && (o.Threw? && !Truthy(Prop(json, "error")) ==> o.message == UnknownWaitError)
  {
    match json
    case None => Threw(NotJsonError)
    case Some(Null) => Threw(NullResultError)
    case Some(_) =>
      if Truthy(Prop(json, "success")) then Returned(Prop(json, "data"))
      else if Truthy(Prop(json, "error")) then Threw(JsString(Prop(json, "error").value))
      else Threw(UnknownWaitError)
  }

  /** The whole wait step: the GET's reply checked, then its JSON read. */
  function InterpretWait(reply: Reply<Option<Value>>): (o: Outcome<Option<Value>>)
    ensures reply.Rejected? ==> o == Threw(reply.reason)
    ensures reply.Response? && !IsOk(reply.status) ==> o == Threw(HttpError(reply.status))
    ensures reply.Response? && IsOk(reply.status) ==> o == WaitResult(reply.body)
  {
    match Checked(reply)
    case Threw(m) => Threw(m)
    case Returned(json) => WaitResult(json)
  }

  /** The wait succeeds exactly for an ok response whose JSON is an object
      with a truthy `success`, and then yields its `data`. */
  lemma WaitSucceedsIff(reply: Reply<Option<Value>>)
    ensures InterpretWait(reply).Returned? <==>
      && reply.Response? && IsOk(reply.status)
      && reply.body.Some? && reply.body.value.Obj?
      && Truthy(Prop(reply.body, "success"))
    ensures InterpretWait(reply).Returned? ==> InterpretWait(reply).value == Prop(reply.body, "data")
  {
  }

  /** The columns a table request accepts: an array with at least one name. */
  predicate ColumnsGiven(columns: Columns) {
    columns.Names? && columns.names != []
  }

  const UseColumns := " Use these columns: "
  const FormatLead := ". The table_data should be in this format: {\"columns\": "
  const RowsExample := ", \"rows\": [[\"row1col1\", \"row1col2\", ...], ...]}"

  /** The part of a table instruction after its opening sentence: the
      columns twice, then the query. */
  function TableTail(columns: seq<string>, query: string): string {
    TailOf(UseColumns, StringArray(columns), FormatLead, RowsExample, " Query: " + query)
  }

  /** The layout of a table instruction's tail: `a` between `u` and `f`,
      `a` again, then `r` and `q`. */
  function TailOf(u: string, a: string, f: string, r: string, q: string): string {
    u + a + f + a + r + q
  }

  /** `m` holds the serialised `columns` at `i`, and that text reads back
      as the columns, in order. */
  predicate ColumnsAt(m: string, i: nat, columns: seq<string>) {
    var a := StringArray(columns);
    i + |a| <= |m| && m[i..i + |a|] == a && ParseStringArray(m[i..i + |a|]) == Some(columns)
  }

  /** `m` ends with `q`. */
  predicate EndsWith(m: string, q: string) {
    |q| <= |m| && m[|m| - |q|..] == q
  }

  /** `a` found at `i` in `m`. */
  predicate SliceIs(m: string, i: nat, a: string) {
    i + |a| <= |m| && m[i..i + |a|] == a
  }

  /** The text in the middle of three is found after the first. */
  lemma Middle(x: string, a: string, y: string)
    ensures SliceIs(x + a + y, |x|, a)
  {
    assert (x + a + y)[|x|..|x| + |a|] == a;
  }

  /** Where the parts of `head + TailOf(u, a, f, r, q)` are found. */
  lemma FirstCopyIn(head: string, u: string, a: string, f: string, r: string, q: string)
    ensures SliceIs(head + TailOf(u, a, f, r, q), |head| + |u|, a)
  {
    assert head + TailOf(u, a, f, r, q) == (head + u) + a + (f + a + r + q);
    Middle(head + u, a, f + a + r + q);
  }

  lemma SecondCopyIn(head: string, u: string, a: string, f: string, r: string, q: string)
    ensures SliceIs(head + TailOf(u, a, f, r, q), |head| + |u| + |a| + |f|, a)
  {
    assert head + TailOf(u, a, f, r, q) == (head + u + a + f) + a + (r + q);
    Middle(head + u + a + f, a, r + q);
  }

  lemma EndIn(head: string, u: string, a: string, f: string, r: string, q: string)
    ensures EndsWith(head + TailOf(u, a, f, r, q), q)
  {
    var m := head + TailOf(u, a, f, r, q);
    assert m == (head + u + a + f + a + r) + q;
    assert m[|m| - |q|..] == q;
  }

  /** The first copy of the columns in a table instruction that starts
      with `head` reads back as the columns. */
  lemma FirstColumnsCopy(head: string, columns: seq<string>, query: string)
    ensures ColumnsAt(head + TableTail(columns, query), |head| + |UseColumns|, columns)
  {
    FirstCopyIn(head, UseColumns, StringArray(columns), FormatLead, RowsExample, " Query: " + query);
    StringArrayRoundTrip(columns);
  }

  /** So does the second copy, inside the example of the format. */
  lemma SecondColumnsCopy(head: string, columns: seq<string>, query: string)
    ensures ColumnsAt(head + TableTail(columns, query),
      |head| + |UseColumns| + |StringArray(columns)| + |FormatLead|, columns)
  {
    SecondCopyIn(head, UseColumns, StringArray(columns), FormatLead, RowsExample, " Query: " + query);
    StringArrayRoundTrip(columns);
  }

  /** A table instruction ends with the query. */
  lemma EndsWithQuery(head: string, columns: seq<string>, query: string)
    ensures EndsWith(head + TableTail(columns, query), " Query: " + query)
  {
    EndIn(head, UseColumns, StringArray(columns), FormatLead, RowsExample, " Query: " + query);
  }

  /** The layout of a table instruction `m` whose first copy of the
      columns starts at `i`: both copies read back as the columns, in order,
      and the instruction ends with the query. */
  predicate TableShape(m: string, i: nat, columns: seq<string>, query: string) {
    && ColumnsAt(m, i, columns)
    && ColumnsAt(m, i + |StringArray(columns)| + |FormatLead|, columns)
    && EndsWith(m, " Query: " + query)
  }

  /** Where the two copies of the serialised columns sit in a table
      instruction that starts with `head`. */
  lemma TableTailShape(head: string, columns: seq<string>, query: string)
    ensures TableShape(head + TableTail(columns, query), |head| + |UseColumns|, columns, query)
  {
    FirstColumnsCopy(head, columns, query);
    SecondColumnsCopy(head, columns, query);
    EndsWithQuery(head, columns, query);
  }
}
