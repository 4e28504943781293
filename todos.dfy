/** The to-do records the two to-do lists keep, and the list operations
    they share: flipping one record's `completed` flag, deleting by id,
    keeping the open ones, the view filter and the "items left" label. */
module Todos {
  import opened Wrappers
  import opened Text
  import opened Seqs

  /** One task. The id comes from `Date.now()`; `createdAt` is the ISO time
      stamp one of the apps stores and the other does not. */
  datatype Todo = Todo(id: int, text: string, completed: bool, createdAt: Option<string>)

  /** One record with its flag flipped when its id matches. */
  function Flip(t: Todo, id: int): Todo {
    if t.id == id then t.(completed := !t.completed) else t
  }

  /** The list after a click on a toggle: every record whose id matches has
      its flag flipped, every other field and every other record is kept,
      and the order does not change. */
  function Toggled(todos: seq<Todo>, id: int): (r: seq<Todo>)
    ensures |r| == |todos|
    ensures forall i :: 0 <= i < |r| ==>
      && r[i].id == todos[i].id && r[i].text == todos[i].text && r[i].createdAt == todos[i].createdAt
      && (r[i].completed <==> (if todos[i].id == id then !todos[i].completed else todos[i].completed))
  {
    seq(|todos|, i requires 0 <= i < |todos| => Flip(todos[i], id))
  }

  /** Toggling the same id twice gives the list back. */
  lemma ToggleTwice(todos: seq<Todo>, id: int)
    ensures Toggled(Toggled(todos, id), id) == todos
  {
    var r := Toggled(Toggled(todos, id), id);
    assert forall i :: 0 <= i < |todos| ==> r[i] == todos[i];
  }

  /** The list after a delete: the records with that id go, every other
      record stays, in order. */
  function WithoutTodo(todos: seq<Todo>, id: int): (r: seq<Todo>)
    ensures IsSubsequence(r, todos)
    ensures forall i :: 0 <= i < |r| ==> r[i].id != id
    ensures forall t :: multiset(r)[t] == if t.id != id then multiset(todos)[t] else 0
  {
    FilterIsSubsequence(todos, (t: Todo) => t.id != id);
    FilterCounts(todos, (t: Todo) => t.id != id);
    Filter(todos, (t: Todo) => t.id != id)
  }

  /** The records not yet completed, in order. */
  function Active(todos: seq<Todo>): (r: seq<Todo>)
    ensures IsSubsequence(r, todos)
    ensures forall i :: 0 <= i < |r| ==> !r[i].completed
    ensures forall t :: multiset(r)[t] == if !t.completed then multiset(todos)[t] else 0
  {
    FilterIsSubsequence(todos, (t: Todo) => !t.completed);
    FilterCounts(todos, (t: Todo) => !t.completed);
    Filter(todos, (t: Todo) => !t.completed)
  }

  /** The completed records, in order. */
  function Done(todos: seq<Todo>): (r: seq<Todo>)
    ensures IsSubsequence(r, todos)
    ensures forall i :: 0 <= i < |r| ==> r[i].completed
    ensures forall t :: multiset(r)[t] == if t.completed then multiset(todos)[t] else 0
  {
    FilterIsSubsequence(todos, (t: Todo) => t.completed);
    FilterCounts(todos, (t: Todo) => t.completed);
    Filter(todos, (t: Todo) => t.completed)
  }

  /** Every record is either open or completed. */
  lemma ActiveDonePartition(todos: seq<Todo>)
    ensures |Active(todos)| + |Done(todos)| == |todos|
  {
    FilterSplits(todos, (t: Todo) => !t.completed, (t: Todo) => t.completed);
  }

  /** The number of open records the footer reports. */
  function ActiveCount(todos: seq<Todo>): nat {
    |Active(todos)|
  }

  /** Once the completed records are cleared, none is completed and every
      record left counts as open. */
  lemma ClearedAllOpen(todos: seq<Todo>)
    ensures forall i :: 0 <= i < |Active(todos)| ==> !Active(todos)[i].completed
    ensures ActiveCount(Active(todos)) == |Active(todos)|
  {
    FilterAllKept(Active(todos), (t: Todo) => !t.completed);
  }

  /** A list without open records counts none, one where all are open
      counts them all. */
  lemma ActiveCountBounds(todos: seq<Todo>)
    ensures ActiveCount(todos) <= |todos|
    ensures (forall i :: 0 <= i < |todos| ==> todos[i].completed) ==> ActiveCount(todos) == 0
    ensures (forall i :: 0 <= i < |todos| ==> !todos[i].completed) ==> ActiveCount(todos) == |todos|
  {
    if forall i :: 0 <= i < |todos| ==> todos[i].completed {
      FilterNoneKept(todos, (t: Todo) => !t.completed);
    }
    if forall i :: 0 <= i < |todos| ==> !todos[i].completed {
      FilterAllKept(todos, (t: Todo) => !t.completed);
    }
  }

  /** The footer text for `n` open records: the numeral, then "item" with
      an "s" unless `n` is exactly one. */
  function ItemsLeftLabel(n: nat): (s: string)
    ensures var d := |NatToString(n)|;
      && d < |s| && IsDigits(s[..d]) && ParseNat(s[..d]) == n
      && (s[d..] == " item left" <==> n == 1)
      && (s[d..] == " items left" <==> n != 1)
  {
    var digits := NatToString(n);
    var rest := if n == 1 then " item left" else " items left";
    ParseNatToString(n);
    assert |" item left"| != |" items left"|;
    assert (digits + rest)[..|digits|] == digits && (digits + rest)[|digits|..] == rest;
    digits + rest
  }

  /** The records the list shows under `filter`: the open ones for
      "active", the completed ones for "completed", all of them for any
      other value. */
  function View(todos: seq<Todo>, filter: string): (r: seq<Todo>)
    ensures IsSubsequence(r, todos)
    ensures filter == "active" ==> forall i :: 0 <= i < |r| ==> !r[i].completed
    ensures filter == "completed" ==> forall i :: 0 <= i < |r| ==> r[i].completed
    ensures filter != "active" && filter != "completed" ==> r == todos
    ensures forall t :: (t in todos && (filter == "active" ==> !t.completed)
      && (filter == "completed" ==> t.completed)) ==> t in r
  {
    if filter == "active" then Active(todos)
    else if filter == "completed" then Done(todos)
    else
      assert IsSubsequence(todos, todos) by {
        FilterAllKept(todos, (t: Todo) => true);
        FilterIsSubsequence(todos, (t: Todo) => true);
      }
      todos
  }
}
