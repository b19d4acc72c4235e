/**
 * TODO records and the list computations the TODO page builds its new
 * lists with: `map` over the entries with a given id, `filter` by id, and
 * the completed / pending counts of the statistics line.
 */
module Todos {
  import opened Wrappers

  /** A TODO record; `dueDate` is a `YYYY-MM-DD` string or null. */
  datatype Todo = Todo(id: int, text: string, completed: bool, dueDate: Option<string>)

  /** `value || null`: the empty string stands for "no due date". */
  function DateOrNull(value: string): (r: Option<string>)
    ensures r == None <==> value == ""
    ensures r.Some? ==> r.value == value
  {
    if value == "" then None else Some(value)
  }

  /** No entry carries this id. */
  predicate AbsentId(todos: seq<Todo>, id: int) {
    forall i :: 0 <= i < |todos| ==> todos[i].id != id
  }

  /** `todos.map(todo => todo.id === id ? f(todo) : todo)`. */
  function MapWhereId(todos: seq<Todo>, id: int, f: Todo -> Todo): (r: seq<Todo>)
    ensures |r| == |todos|
    ensures forall i :: 0 <= i < |todos| ==> r[i] == if todos[i].id == id then f(todos[i]) else todos[i]
  {
    if todos == [] then []
    else [if todos[0].id == id then f(todos[0]) else todos[0]] + MapWhereId(todos[1..], id, f)
  }

  /** The list after `toggleTodo(id)`. */
  function Toggled(todos: seq<Todo>, id: int): (r: seq<Todo>)
    ensures |r| == |todos|
    ensures forall i :: 0 <= i < |todos| ==>
      && r[i].id == todos[i].id && r[i].text == todos[i].text && r[i].dueDate == todos[i].dueDate
      && r[i].completed == (todos[i].completed != (todos[i].id == id))
  {
    MapWhereId(todos, id, (t: Todo) => t.(completed := !t.completed))
  }

  /** The list after a committed text edit of the entries with `id`. */
  function WithText(todos: seq<Todo>, id: int, text: string): (r: seq<Todo>)
    ensures |r| == |todos|
    ensures forall i :: 0 <= i < |todos| ==>
      && r[i].id == todos[i].id && r[i].completed == todos[i].completed && r[i].dueDate == todos[i].dueDate
      && r[i].text == (if todos[i].id == id then text else todos[i].text)
  {
    MapWhereId(todos, id, (t: Todo) => t.(text := text))
  }

  /** The list after a committed due-date edit of the entries with `id`. */
  function WithDueDate(todos: seq<Todo>, id: int, dueDate: Option<string>): (r: seq<Todo>)
    ensures |r| == |todos|
    ensures forall i :: 0 <= i < |todos| ==>
      && r[i].id == todos[i].id && r[i].text == todos[i].text && r[i].completed == todos[i].completed
      && r[i].dueDate == (if todos[i].id == id then dueDate else todos[i].dueDate)
  {
    MapWhereId(todos, id, (t: Todo) => t.(dueDate := dueDate))
  }

  /** The list after `deleteTodo(id)`: `todos.filter(todo => todo.id !== id)`. */
  function Deleted(todos: seq<Todo>, id: int): (r: seq<Todo>)
    ensures |r| <= |todos|
    ensures forall t :: t in r <==> t in todos && t.id != id
  {
    if todos == [] then []
    else if todos[0].id == id then Deleted(todos[1..], id)
    else [todos[0]] + Deleted(todos[1..], id)
  }

  /** Toggling the same id twice restores the list. */
  lemma ToggledTwice(todos: seq<Todo>, id: int)
    ensures Toggled(Toggled(todos, id), id) == todos
  {
  }

  /** Updating an id that no entry carries changes nothing. */
  lemma MapWhereAbsentId(todos: seq<Todo>, id: int, f: Todo -> Todo)
    requires AbsentId(todos, id)
    ensures MapWhereId(todos, id, f) == todos
  {
  }

  /** Deletion distributes over concatenation: entries keep their relative order. */
  lemma {:induction false} DeletedAppend(a: seq<Todo>, b: seq<Todo>, id: int)
    ensures Deleted(a + b, id) == Deleted(a, id) + Deleted(b, id)
  {
    if a != [] {
      assert (a + b)[0] == a[0];
      assert (a + b)[1..] == a[1..] + b;
      DeletedAppend(a[1..], b, id);
    } else {
      assert a + b == b;
    }
  }

  /** Deleting an id that no entry carries changes nothing. */
  lemma {:induction false} DeletedAbsentId(todos: seq<Todo>, id: int)
    requires AbsentId(todos, id)
    ensures Deleted(todos, id) == todos
  {
    if todos != [] {
      DeletedAbsentId(todos[1..], id);
    }
  }

  /** Deleting twice is deleting once. */
  lemma DeletedIdempotent(todos: seq<Todo>, id: int)
    ensures Deleted(Deleted(todos, id), id) == Deleted(todos, id)
  {
    var r := Deleted(todos, id);
    assert forall i :: 0 <= i < |r| ==> r[i] in r;
    DeletedAbsentId(r, id);
  }

  /** `todos.filter(todo => todo.completed).length`. */
  function CountCompleted(todos: seq<Todo>): nat {
    if todos == [] then 0 else (if todos[0].completed then 1 else 0) + CountCompleted(todos[1..])
  }

  /** `todos.filter(todo => !todo.completed).length`. */
  function CountPending(todos: seq<Todo>): nat {
    if todos == [] then 0 else (if todos[0].completed then 0 else 1) + CountPending(todos[1..])
  }

  /** Every entry is either completed or pending. */
  lemma {:induction false} CountsPartition(todos: seq<Todo>)
    ensures CountCompleted(todos) + CountPending(todos) == |todos|
  {
    if todos != [] {
      CountsPartition(todos[1..]);
    }
  }

  /** The counts of a concatenation add up. */
  lemma {:induction false} CountsAppend(a: seq<Todo>, b: seq<Todo>)
    ensures CountCompleted(a + b) == CountCompleted(a) + CountCompleted(b)
    ensures CountPending(a + b) == CountPending(a) + CountPending(b)
  {
    if a != [] {
      assert (a + b)[0] == a[0];
      assert (a + b)[1..] == a[1..] + b;
      CountsAppend(a[1..], b);
    } else {
      assert a + b == b;
    }
  }

  datatype Statistics = Statistics(total: nat, completed: nat, pending: nat)

  /** The statistics line: total, completed and pending entries. */
  function Stats(todos: seq<Todo>): (s: Statistics)
    ensures s.total == |todos| && s.completed + s.pending == s.total
  {
    CountsPartition(todos);
    Statistics(|todos|, CountCompleted(todos), CountPending(todos))
  }
}
