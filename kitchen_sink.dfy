/** The kitchen-sink demo page: the counter with its colour rule, the
    to-do list kept in the page's closure, and the three Goose panels whose
    send buttons refuse an empty message and whose display functions fall
    back to a fixed note when the reply is empty. */
module KitchenSink {
  import opened Wrappers
  import opened Text
  import opened Json
  import opened Todos
  import opened GooseProtocol
  import opened GooseWaitClient

  // ---------------------------------------------------------------- counter

  const Red := "#e74c3c"
  const Green := "#2ecc71"
  const Neutral := "#333"

  /** The colour of the counter's figure: red below zero, green above,
      the default grey at zero. */
  function CounterColor(count: int): (c: string)
    ensures c == Red <==> count < 0
    ensures c == Green <==> count > 0
    ensures c == Neutral <==> count == 0
  {
    if count < 0 then Red else if count > 0 then Green else Neutral
  }

  class Counter {
    var count: int

    constructor ()
      ensures count == 0
    {
      count := 0;
    }

    /** The colour `updateCounter` gives the figure. */
    function Color(): string
      reads this
    {
      CounterColor(count)
    }

    method Increase()
      modifies this
      ensures count == old(count) + 1
      ensures old(count) >= 0 ==> Color() == Green
    {
      count := count + 1;
    }

    method Decrease()
      modifies this
      ensures count == old(count) - 1
      ensures old(count) <= 0 ==> Color() == Red
    {
      count := count - 1;
    }

    method Reset()
      modifies this
      ensures count == 0 && Color() == Neutral
    {
      count := 0;
    }
  }

  // ---------------------------------------------------------------- to-do list

  const EmptyListNote := "No tasks yet. Add one above!"

  /** One entry of the rendered list: the placeholder, or a task with the
      label of its toggle button. */
  datatype Entry = Placeholder(note: string) | Row(text: string, completed: bool, toggleLabel: string)

  class TodoList {
    var todos: seq<Todo>

    /** The list when nothing was saved. */
    constructor ()
      ensures todos == []
    {
      todos := [];
    }

    /** The add box: a non-blank entry becomes a new open task (without a
        time stamp) at the end, and the box is emptied; a blank entry
        changes nothing. Answers what the box holds afterwards. */
    method AddTodo(input: string, id: int) returns (inputAfter: string)
      modifies this
      ensures Trim(input) != [] ==> todos == old(todos) + [Todo(id, Trim(input), false, None)] && inputAfter == []
      ensures Trim(input) == [] ==> todos == old(todos) && inputAfter == input
    {
      var todoText := Trim(input);
      inputAfter := input;
      if todoText != [] {
        todos := todos + [Todo(id, todoText, false, None)];
        inputAfter := [];
      }
    }

    method ToggleTodo(id: int)
      modifies this
      ensures todos == Toggled(old(todos), id)
    {
      todos := Toggled(todos, id);
    }

    method DeleteTodo(id: int)
      modifies this
      ensures todos == WithoutTodo(old(todos), id)
    {
      todos := WithoutTodo(todos, id);
    }

    /** What `renderTodos` shows: the one placeholder for an empty list,
        otherwise one row per task, in order, whose button reads "Undo" for
        a completed task and "Complete" for an open one. */
    function Entries(): (r: seq<Entry>)
      reads this
      ensures todos == [] ==> r == [Placeholder(EmptyListNote)]
      ensures todos != [] ==> |r| == |todos| && forall i :: 0 <= i < |r| ==>
        && r[i].Row? && r[i].text == todos[i].text && r[i].completed == todos[i].completed
        && (r[i].toggleLabel == "Undo" <==> todos[i].completed)
        && (r[i].toggleLabel == "Complete" <==> !todos[i].completed)
    {
      if todos == [] then [Placeholder(EmptyListNote)]
      else
        seq(|todos|, i requires 0 <= i < |todos| reads this =>
          Row(todos[i].text, todos[i].completed, if todos[i].completed then "Undo" else "Complete"))
    }
  }

  // ---------------------------------------------------------------- Goose panels

  const EnterMessage := "Please enter a message"
  const NoItems := "No items returned"
  const NoTable := "No table data returned"
  const TableColumns: seq<string> := ["Feature", "Description", "Notes"]

  /** What a response panel shows. A table whose columns or rows are not
      arrays passes the guard and then fails inside the page's own code;
      such a reply shows as `Unreadable`. */
  datatype Panel =
    | ErrorNote(message: string)
    | EmptyNote(note: string)
    | TextPanel(text: string)
    | ListPanel(items: seq<Value>)
    | TablePanel(columns: seq<Value>, rows: seq<Value>)
    | Unreadable

  /** `${v}` in a template literal; `None` is `undefined`. */
  function TemplateText(v: Option<Value>): string {
    if v.None? then "undefined" else JsString(v.value)
  }

  /** `v.length`: of a string or an array, or the property of an object. */
  function Length(v: Option<Value>): Option<Value> {
    match v
    case Some(Str(s)) => Some(Num(|s|))
    case Some(Arr(items)) => Some(Num(|items|))
    case _ => Prop(v, "length")
  }

  function DisplayText(text: Option<Value>): Panel {
    TextPanel(TemplateText(text))
  }

  /** The list panel: the note unless the reply is an array with at least
      one item, and then the items in order. */
  function DisplayList(items: Option<Value>): (p: Panel)
    ensures p == EmptyNote(NoItems) <==> !(items.Some? && items.value.Arr? && items.value.items != [])
    ensures p.ListPanel? ==> items == Some(Arr(p.items))
  {
    if items.Some? && items.value.Arr? && items.value.items != [] then ListPanel(items.value.items)
    else EmptyNote(NoItems)
  }

  /** The guard of the table panel: the reply and its columns and rows
      are truthy and the rows' length is not zero. */
  predicate TableGuard(tableData: Option<Value>) {
    Truthy(tableData) && Truthy(Prop(tableData, "columns")) && Truthy(Prop(tableData, "rows"))
    && Length(Prop(tableData, "rows")) != Some(Num(0))
  }

  /** The table panel: the note when the guard fails, the columns and rows
      when both are arrays. */
  function DisplayTable(tableData: Option<Value>): (p: Panel)
    ensures p == EmptyNote(NoTable) <==> !TableGuard(tableData)
    ensures p.TablePanel? ==> (tableData.Some? && tableData.value.Obj?
      && Prop(tableData, "columns") == Some(Arr(p.columns)) && Prop(tableData, "rows") == Some(Arr(p.rows))
      && p.rows != [])
  {
    if !TableGuard(tableData) then EmptyNote(NoTable)
    else
      var columns := Prop(tableData, "columns");
      var rows := Prop(tableData, "rows");
      if columns.value.Arr? && rows.value.Arr? then TablePanel(columns.value.items, rows.value.items)
      else Unreadable
  }

  /** The panel after a request: the display of its result, or the error. */
  function Shown(outcome: Outcome<Option<Value>>, display: Option<Value> -> Panel): Panel {
    match outcome
    case Returned(v) => display(v)
    case Threw(m) => ErrorNote("Error: " + m)
  }

  /** The text panel's send button. A blank message shows the prompt and
      sends nothing; otherwise the trimmed message goes out as a text
      request and its result or error is shown. */
  method SendTextMessage(input: string, responseId: string, sessionId: string, nowMs: nat,
                         post: Reply<()>, wait: Reply<Option<Value>>)
    returns (calls: seq<Call>, panel: Panel)
    ensures Trim(input) == [] ==> calls == [] && panel == ErrorNote(EnterMessage)
    ensures Trim(input) != [] ==> SentFirst(calls, Preamble + TextMessage(responseId, Trim(input)))
    ensures Trim(input) != [] && Checked(post).Threw? ==> panel == ErrorNote("Error: " + Checked(post).message)
    ensures Trim(input) != [] && Checked(post).Returned? ==> panel == Shown(InterpretWait(wait), DisplayText)
  {
    var message := Trim(input);
    if message == [] {
      return [], ErrorNote(EnterMessage);
    }
    var outcome;
    calls, outcome := GooseRequestText(message, responseId, sessionId, nowMs, post, wait);
    panel := Shown(outcome, DisplayText);
  }

  /** The list panel's send button. */
  method SendListMessage(input: string, responseId: string, sessionId: string, nowMs: nat,
                         post: Reply<()>, wait: Reply<Option<Value>>)
    returns (calls: seq<Call>, panel: Panel)
    ensures Trim(input) == [] ==> calls == [] && panel == ErrorNote(EnterMessage)
    ensures Trim(input) != [] ==> SentFirst(calls, Preamble + ListMessage(responseId, Trim(input)))
    ensures Trim(input) != [] && Checked(post).Threw? ==> panel == ErrorNote("Error: " + Checked(post).message)
    ensures Trim(input) != [] && Checked(post).Returned? ==> panel == Shown(InterpretWait(wait), DisplayList)
  {
    var message := Trim(input);
    if message == [] {
      return [], ErrorNote(EnterMessage);
    }
    var outcome;
    calls, outcome := GooseRequestList(message, responseId, sessionId, nowMs, post, wait);
    panel := Shown(outcome, DisplayList);
  }

  /** The table panel's send button: the request always names the three
      fixed columns. */
  method SendTableMessage(input: string, responseId: string, sessionId: string, nowMs: nat,
                          post: Reply<()>, wait: Reply<Option<Value>>)
    returns (calls: seq<Call>, panel: Panel)
    ensures Trim(input) == [] ==> calls == [] && panel == ErrorNote(EnterMessage)
    ensures Trim(input) != [] ==> SentFirst(calls, Preamble + TableMessage(responseId, TableColumns, Trim(input)))
    ensures Trim(input) != [] && Checked(post).Threw? ==> panel == ErrorNote("Error: " + Checked(post).message)
    ensures Trim(input) != [] && Checked(post).Returned? ==> panel == Shown(InterpretWait(wait), DisplayTable)
  {
    var message := Trim(input);
    if message == [] {
      return [], ErrorNote(EnterMessage);
    }
    var outcome;
    calls, outcome := GooseRequestTable(message, Names(TableColumns), responseId, sessionId, nowMs, post, wait);
    panel := Shown(outcome, DisplayTable);
  }
}
