/** The stand-alone to-do app: the list of records and the current view
    filter, changed by the add box, the toggle and delete buttons, the
    clear-completed button and the filter buttons. */
module TodoApp {
  import opened Wrappers
  import opened Text
  import opened Seqs
  import opened Todos

  class App {
    var todos: seq<Todo>
    var currentFilter: string

    /** The state when the page opens with nothing saved. */
    constructor ()
      ensures todos == [] && currentFilter == "all"
    {
      todos, currentFilter := [], "all";
    }

    /** The add box. A non-blank entry becomes a new open record carrying
        the trimmed text, appended at the end, and the box is emptied; a
        blank entry changes nothing. `id` and `createdAt` stand for the
        clock readings. Answers what the box holds afterwards. */
    method AddTask(input: string, id: int, createdAt: string) returns (inputAfter: string)
      modifies this
      ensures Trim(input) != [] ==> todos == old(todos) + [Todo(id, Trim(input), false, Some(createdAt))]
      ensures Trim(input) != [] ==> inputAfter == []
      ensures Trim(input) == [] ==> todos == old(todos) && inputAfter == input
      ensures currentFilter == old(currentFilter)
    {
      var taskText := Trim(input);
      inputAfter := input;
      if taskText != [] {
        todos := todos + [Todo(id, taskText, false, Some(createdAt))];
        inputAfter := [];
      }
    }

    /** A toggle button. */
    method ToggleTodo(id: int)
      modifies this
      ensures todos == Toggled(old(todos), id)
      ensures currentFilter == old(currentFilter)
    {
      todos := Toggled(todos, id);
    }

    /** A delete button. */
    method DeleteTodo(id: int)
      modifies this
      ensures todos == WithoutTodo(old(todos), id)
      ensures currentFilter == old(currentFilter)
    {
      todos := WithoutTodo(todos, id);
    }

    /** The clear-completed button: the open records stay, in order, and
        afterwards every record counts as open. */
    method ClearCompleted()
      modifies this
      ensures todos == Active(old(todos))
      ensures forall i :: 0 <= i < |todos| ==> !todos[i].completed
      ensures ActiveCount(todos) == |todos|
      ensures currentFilter == old(currentFilter)
    {
      todos := Active(todos);
      ClearedAllOpen(old(todos));
    }

    /** A filter button sets the filter named by its data attribute. */
    method SetFilter(filter: string)
      modifies this
      ensures currentFilter == filter && todos == old(todos)
    {
      currentFilter := filter;
    }

    /** The footer text. */
    function ItemsLeft(): (s: string)
      reads this
      ensures var d := |NatToString(ActiveCount(todos))|;
        d < |s| && IsDigits(s[..d]) && ParseNat(s[..d]) == ActiveCount(todos)
        && (s[d..] == " item left" <==> ActiveCount(todos) == 1)
    {
      ItemsLeftLabel(ActiveCount(todos))
    }

    /** The records the list shows under the current filter. */
    function Visible(): (r: seq<Todo>)
      reads this
      ensures IsSubsequence(r, todos)
      ensures currentFilter == "active" ==> forall i :: 0 <= i < |r| ==> !r[i].completed
      ensures currentFilter == "completed" ==> forall i :: 0 <= i < |r| ==> r[i].completed
      ensures currentFilter != "active" && currentFilter != "completed" ==> r == todos
    {
      View(todos, currentFilter)
    }
  }
}
