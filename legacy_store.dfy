/**
 * The earlier TODO page: a list of `{id, text, completed}` records and the
 * new-item input, with no due dates, no persistence and no editing. Its list
 * operations are defined here on their own and shown to agree with those of
 * the later page on records without a due date.
 */
module LegacyTodoApp {
  import opened Wrappers
  import opened JsText
  import Todos

  datatype LegacyTodo = LegacyTodo(id: int, text: string, completed: bool)

  /** The same record in the later page's form, with no due date. */
  function Upgrade(t: LegacyTodo): Todos.Todo {
    Todos.Todo(t.id, t.text, t.completed, None)
  }

  function UpgradeAll(todos: seq<LegacyTodo>): (r: seq<Todos.Todo>)
    ensures |r| == |todos| && forall i :: 0 <= i < |todos| ==> r[i] == Upgrade(todos[i])
  {
    if todos == [] then [] else [Upgrade(todos[0])] + UpgradeAll(todos[1..])
  }

  /** `todos.map(todo => todo.id === id ? { ...todo, completed: !todo.completed } : todo)`. */
  function Toggled(todos: seq<LegacyTodo>, id: int): (r: seq<LegacyTodo>)
    ensures |r| == |todos|
    ensures forall i :: 0 <= i < |todos| ==>
      && r[i].id == todos[i].id && r[i].text == todos[i].text
      && r[i].completed == (if todos[i].id == id then !todos[i].completed else todos[i].completed)
  {
    if todos == [] then []
    else
      var t := todos[0];
      [if t.id == id then t.(completed := !t.completed) else t] + Toggled(todos[1..], id)
  }

  /** `todos.filter(todo => todo.id !== id)`. */
  function Deleted(todos: seq<LegacyTodo>, id: int): (r: seq<LegacyTodo>)
    ensures |r| <= |todos|
    ensures forall t :: t in r <==> t in todos && t.id != id
  {
    if todos == [] then []
    else if todos[0].id == id then Deleted(todos[1..], id)
    else [todos[0]] + Deleted(todos[1..], id)
  }

  function CountCompleted(todos: seq<LegacyTodo>): nat {
    if todos == [] then 0 else (if todos[0].completed then 1 else 0) + CountCompleted(todos[1..])
  }

  function CountPending(todos: seq<LegacyTodo>): nat {
    if todos == [] then 0 else (if todos[0].completed then 0 else 1) + CountPending(todos[1..])
  }

  /** The statistics line `全体 | 完了 | 未完了`: completed and pending add up to the total. */
  lemma {:induction false} CountsPartition(todos: seq<LegacyTodo>)
    ensures CountCompleted(todos) + CountPending(todos) == |todos|
  {
    if todos != [] {
      CountsPartition(todos[1..]);
    }
  }

  /** Toggling agrees with the later page's toggle on records without a due date. */
  lemma {:induction false} ToggledAgrees(todos: seq<LegacyTodo>, id: int)
    ensures UpgradeAll(Toggled(todos, id)) == Todos.Toggled(UpgradeAll(todos), id)
  {
    var a := UpgradeAll(Toggled(todos, id));
    var b := Todos.Toggled(UpgradeAll(todos), id);
    assert |a| == |b|;
    forall i | 0 <= i < |a|
      ensures a[i] == b[i]
    {
    }
  }

  /** Deleting agrees with the later page's delete, entry for entry and in order. */
  lemma {:induction false} DeletedAgrees(todos: seq<LegacyTodo>, id: int)
    ensures UpgradeAll(Deleted(todos, id)) == Todos.Deleted(UpgradeAll(todos), id)
  {
    if todos != [] {
      DeletedAgrees(todos[1..], id);
      assert UpgradeAll(todos)[1..] == UpgradeAll(todos[1..]);
      if todos[0].id != id {
        assert UpgradeAll([todos[0]] + Deleted(todos[1..], id))
          == [Upgrade(todos[0])] + UpgradeAll(Deleted(todos[1..], id));
      }
    }
  }

  /** The counts agree with the later page's counts. */
  lemma {:induction false} CountsAgree(todos: seq<LegacyTodo>)
    ensures CountCompleted(todos) == Todos.CountCompleted(UpgradeAll(todos))
    ensures CountPending(todos) == Todos.CountPending(UpgradeAll(todos))
  {
    if todos != [] {
      CountsAgree(todos[1..]);
      assert UpgradeAll(todos)[1..] == UpgradeAll(todos[1..]);
    }
  }

  class TodoApp {
    var todos: seq<LegacyTodo>
    var inputValue: string

    /** Both start empty. */
    constructor ()
      ensures todos == [] && inputValue == ""
    {
      todos := [];
      inputValue := "";
    }

    /** The statistics line of the current list. */
    function Statistics(): (s: Todos.Statistics)
      reads this
      ensures s.total == |todos| && s.completed + s.pending == s.total
    {
      CountsPartition(todos);
      Todos.Statistics(|todos|, CountCompleted(todos), CountPending(todos))
    }

    method SetInputValue(value: string)
      modifies this`inputValue
      ensures inputValue == value
    {
      inputValue := value;
    }

    /**
     * `addTodo`, with the new id (`Date.now()`) supplied by the caller: blank
     * input changes nothing; otherwise one incomplete record with the trimmed
     * text is appended and the input is cleared.
     */
    method AddTodo(id: int)
      modifies this
      ensures Trim(old(inputValue)) == "" ==> todos == old(todos) && inputValue == old(inputValue)
      ensures Trim(old(inputValue)) != "" ==>
        todos == old(todos) + [LegacyTodo(id, Trim(old(inputValue)), false)] && inputValue == ""
    {
      var trimmed := Trim(inputValue);
      if trimmed != "" {
        todos := todos + [LegacyTodo(id, trimmed, false)];
        inputValue := "";
      }
    }

    method ToggleTodo(id: int)
      modifies this`todos
      ensures todos == Toggled(old(todos), id)
    {
      todos := Toggled(todos, id);
    }

    method DeleteTodo(id: int)
      modifies this`todos
      ensures todos == Deleted(old(todos), id)
    {
      todos := Deleted(todos, id);
    }

    /** `handleKeyPress`: Enter adds, every other key does nothing. */
    method HandleKeyPress(key: string, id: int)
      modifies this
      ensures key == "Enter" && Trim(old(inputValue)) != "" ==>
        todos == old(todos) + [LegacyTodo(id, Trim(old(inputValue)), false)] && inputValue == ""
      ensures key != "Enter" || Trim(old(inputValue)) == "" ==>
        todos == old(todos) && inputValue == old(inputValue)
    {
      if key == "Enter" {
        AddTodo(id);
      }
    }
  }

  /** Adding blank input leaves the list as it was; adding text grows it by one pending entry. */
  method AddScenario(id: int)
  {
    var app := new TodoApp();
    app.SetInputValue("  ");
    assert Trim("  ") == "" by { TrimEmptyIffBlank("  "); }
    app.AddTodo(id);
    assert app.todos == [];
    app.SetInputValue("Write report");
    assert Trim("Write report") == "Write report" by { TrimOfUnpadded("Write report"); }
    app.HandleKeyPress("Enter", id);
    assert app.todos == [LegacyTodo(id, "Write report", false)] && app.inputValue == "";
    assert app.Statistics() == Todos.Statistics(1, 0, 1);
    app.DeleteTodo(id);
    assert app.todos == [];
  }
}
