/**
 * The state of the TODO page and its handlers: the list, the browser-storage
 * copy written after each change, the new-item form and the two inline
 * editors. Each handler replaces the list with one built by the functions of
 * `Todos` and writes it to storage unless a clear-all is in progress.
 */
module TodoStore {
  import opened Wrappers
  import opened CivilDate
  import opened JsText
  import opened DateValidator
  import opened Todos

  /** The storage key `todos`: absent, holding text that does not parse, or a saved list. */
  datatype Slot = Absent | Unreadable | Holds(saved: seq<Todo>)

  /** The list the page starts with: the saved one, or the empty list when none can be read. */
  function LoadTodos(slot: Slot): seq<Todo> {
    if slot.Holds? then slot.saved else []
  }

  /** Adding is refused: a manually typed, non-empty due date fails validation. */
  predicate AddRejected(isManualDate: bool, dueDateValue: string, today: Date)
    requires IsValid(today)
  {
    isManualDate && dueDateValue != "" && !ValidateDate(dueDateValue, today).isValid
  }

  /** Saving a date edit is refused: the non-empty edited date fails validation. */
  predicate DateEditRejected(editingDate: string, today: Date)
    requires IsValid(today)
  {
    editingDate != "" && !ValidateDate(editingDate, today).isValid
  }

  class TodoApp {
    var todos: seq<Todo>
    var stored: Slot
    var inputValue: string
    var dueDateValue: string
    var isManualDate: bool
    var isClearing: bool
    var editingId: Option<int>
    var editingText: string
    var editingDateId: Option<int>
    var editingDate: string
    var dateError: string
    var editDateError: string

    /** The new-item form: its text, its due date, the manual-entry switch and its error. */
    function Draft(): (string, string, bool, string)
      reads this
    {
      (inputValue, dueDateValue, isManualDate, dateError)
    }

    /** The inline text editor: the id being edited and the edited text. */
    function TextEdit(): (Option<int>, string)
      reads this
    {
      (editingId, editingText)
    }

    /** The inline date editor: the id being edited, the edited date and its error. */
    function DateEdit(): (Option<int>, string, string)
      reads this
    {
      (editingDateId, editingDate, editDateError)
    }

    /** The storage copy is the list itself. */
    predicate Synced()
      reads this
    {
      stored == Holds(todos)
    }

    /** The statistics line of the current list. */
    function Statistics(): (s: Todos.Statistics)
      reads this
      ensures s.total == |todos| && s.completed + s.pending == |todos|
    {
      Stats(todos)
    }

    /** The state after a list change: written to storage unless clearing, the rest as before. */
    twostate predicate Persisted()
      reads this
    {
      stored == (if isClearing then old(stored) else Holds(todos))
    }

    /** Initial state: the list is read from storage once; unreadable data gives the empty list. */
    constructor (saved: Slot)
      ensures todos == LoadTodos(saved) && stored == saved
      ensures !saved.Holds? ==> todos == []
      ensures Draft() == ("", "", false, "") && !isClearing
      ensures TextEdit() == (None, "") && DateEdit() == (None, "", "")
    {
      todos := LoadTodos(saved);
      stored := saved;
      inputValue, dueDateValue, isManualDate, dateError := "", "", false, "";
      isClearing := false;
      editingId, editingText := None, "";
      editingDateId, editingDate, editDateError := None, "", "";
    }

    /** `saveTodosToLocalStorage`: writes exactly the given list, unless a clear is in progress. */
    method SaveTodos(todosToSave: seq<Todo>)
      modifies this`stored
      ensures stored == if isClearing then old(stored) else Holds(todosToSave)
    {
      if !isClearing {
        stored := Holds(todosToSave);
      }
    }

    method SetInputValue(value: string)
      modifies this`inputValue
      ensures inputValue == value
    {
      inputValue := value;
    }

    /** `handleDateValueChange`: typing a due date clears its error. */
    method HandleDateValueChange(value: string)
      modifies this`dueDateValue, this`dateError
      ensures dueDateValue == value && dateError == ""
    {
      dueDateValue := value;
      if dateError != "" {
        dateError := "";
      }
    }

    method ToggleManualDate()
      modifies this`isManualDate
      ensures isManualDate == !old(isManualDate)
    {
      isManualDate := !isManualDate;
    }

    /**
     * What `addTodo` leaves behind. Blank text changes nothing; a manual due
     * date that fails validation only sets the form's error; otherwise one
     * record with the trimmed text is appended and the form is cleared.
     */
    twostate predicate AddedTodo(id: int, today: Date)
      requires IsValid(today)
      reads this
    {
      && isClearing == old(isClearing) && isManualDate == old(isManualDate)
      && TextEdit() == old(TextEdit()) && DateEdit() == old(DateEdit())
      && (Trim(old(inputValue)) == "" ==>
            todos == old(todos) && stored == old(stored) && Draft() == old(Draft()))
      && (Trim(old(inputValue)) != "" && AddRejected(isManualDate, old(dueDateValue), today) ==>
            && todos == old(todos) && stored == old(stored)
            && inputValue == old(inputValue) && dueDateValue == old(dueDateValue)
            && dateError == ValidateDate(old(dueDateValue), today).error && dateError != "")
      && (Trim(old(inputValue)) != "" && !AddRejected(isManualDate, old(dueDateValue), today) ==>
            && todos == old(todos) + [Todo(id, Trim(old(inputValue)), false, DateOrNull(old(dueDateValue)))]
            && Persisted()
            && inputValue == "" && dueDateValue == "" && dateError == "")
    }

    /** `addTodo`, with the new id (`Date.now()`) and today's date supplied by the caller. */
    method AddTodo(id: int, today: Date)
      requires IsValid(today)
      modifies this
      ensures AddedTodo(id, today)
    {
      var trimmed := Trim(inputValue);
      var validation := if isManualDate && dueDateValue != "" then ValidateDate(dueDateValue, today) else Accepted;
      if trimmed != "" && !validation.isValid {
        dateError := validation.error;
      } else if trimmed != "" {
        dateError := "";
        var newTodos := todos + [Todo(id, trimmed, false, DateOrNull(dueDateValue))];
        todos := newTodos;
        SaveTodos(newTodos);
        inputValue := "";
        dueDateValue := "";
      }
    }

    /** `handleKeyDown` of the new-item text box: Enter there adds, anything else does nothing. */
    method HandleKeyDown(key: string, fromTodoInput: bool, id: int, today: Date)
      requires IsValid(today)
      modifies this
      ensures key == "Enter" && fromTodoInput ==> AddedTodo(id, today)
      ensures !(key == "Enter" && fromTodoInput) ==> unchanged(this)
    {
      if key == "Enter" && fromTodoInput {
        AddTodo(id, today);
      }
    }

    /** `toggleTodo`: flips `completed` on the entries with this id and saves. */
    method ToggleTodo(id: int)
      modifies this
      ensures todos == Toggled(old(todos), id) && Persisted()
      ensures isClearing == old(isClearing) && Draft() == old(Draft())
      ensures TextEdit() == old(TextEdit()) && DateEdit() == old(DateEdit())
    {
      var newTodos := Toggled(todos, id);
      todos := newTodos;
      SaveTodos(newTodos);
    }

    /** `deleteTodo`: removes the entries with this id and saves. */
    method DeleteTodo(id: int)
      modifies this
      ensures todos == Deleted(old(todos), id) && Persisted()
      ensures isClearing == old(isClearing) && Draft() == old(Draft())
      ensures TextEdit() == old(TextEdit()) && DateEdit() == old(DateEdit())
    {
      var newTodos := Deleted(todos, id);
      todos := newTodos;
      SaveTodos(newTodos);
    }

    method StartEditing(id: int, text: string)
      modifies this`editingId, this`editingText
      ensures TextEdit() == (Some(id), text)
    {
      editingId := Some(id);
      editingText := text;
    }

    method SetEditingText(text: string)
      modifies this`editingText
      ensures editingText == text
    {
      editingText := text;
    }

    /** What `saveEdit(id)` leaves behind. */
    twostate predicate SavedEdit(id: int)
      reads this
    {
      && (Trim(old(editingText)) != "" ==>
            todos == WithText(old(todos), id, Trim(old(editingText))) && Persisted())
      && (Trim(old(editingText)) == "" ==> todos == old(todos) && stored == old(stored))
      && TextEdit() == (None, "")
      && isClearing == old(isClearing) && Draft() == old(Draft()) && DateEdit() == old(DateEdit())
    }

    /** What `cancelEdit` leaves behind: the editor closes, nothing else changes. */
    twostate predicate CancelledEdit()
      reads this
    {
      && TextEdit() == (None, "")
      && todos == old(todos) && stored == old(stored)
      && isClearing == old(isClearing) && Draft() == old(Draft()) && DateEdit() == old(DateEdit())
    }

    /** `saveEdit`: non-blank trimmed text replaces the text of the entries with this id; the editor always closes. */
    method SaveEdit(id: int)
      modifies this
      ensures SavedEdit(id)
    {
      var trimmed := Trim(editingText);
      if trimmed != "" {
        var newTodos := WithText(todos, id, trimmed);
        todos := newTodos;
        SaveTodos(newTodos);
      }
      editingId := None;
      editingText := "";
    }

    method CancelEdit()
      modifies this
      ensures CancelledEdit()
    {
      editingId := None;
      editingText := "";
    }

    /** `handleEditKeyDown`: Enter saves, Escape cancels, other keys do nothing. */
    method HandleEditKeyDown(key: string, id: int)
      modifies this
      ensures key == "Enter" ==> SavedEdit(id)
      ensures key == "Escape" ==> CancelledEdit()
      ensures key != "Enter" && key != "Escape" ==> unchanged(this)
    {
      if key == "Enter" {
        SaveEdit(id);
      } else if key == "Escape" {
        CancelEdit();
      }
    }

    /** `startEditingDate`: opens the date editor on this id with its date, or empty. */
    method StartEditingDate(id: int, dueDate: Option<string>)
      modifies this`editingDateId, this`editingDate
      ensures editingDateId == Some(id)
      ensures editingDate == if dueDate.Some? then dueDate.value else ""
    {
      editingDateId := Some(id);
      editingDate := if dueDate.Some? then dueDate.value else "";
    }

    /** `handleEditDateChange`: typing a date clears the editor's error. */
    method HandleEditDateChange(value: string)
      modifies this`editingDate, this`editDateError
      ensures editingDate == value && editDateError == ""
    {
      editingDate := value;
      if editDateError != "" {
        editDateError := "";
      }
    }

    /** What `saveDateEdit(id)` leaves behind. */
    twostate predicate SavedDateEdit(id: int, today: Date)
      requires IsValid(today)
      reads this
    {
      && (DateEditRejected(old(editingDate), today) ==>
            && todos == old(todos) && stored == old(stored)
            && editingDateId == old(editingDateId) && editingDate == old(editingDate)
            && editDateError == ValidateDate(old(editingDate), today).error && editDateError != "")
      && (!DateEditRejected(old(editingDate), today) ==>
            && todos == WithDueDate(old(todos), id, DateOrNull(old(editingDate))) && Persisted()
            && DateEdit() == (None, "", ""))
      && isClearing == old(isClearing) && Draft() == old(Draft()) && TextEdit() == old(TextEdit())
    }

    /** What `cancelDateEdit` leaves behind: the date editor closes and its error clears. */
    twostate predicate CancelledDateEdit()
      reads this
    {
      && DateEdit() == (None, "", "")
      && todos == old(todos) && stored == old(stored)
      && isClearing == old(isClearing) && Draft() == old(Draft()) && TextEdit() == old(TextEdit())
    }

    /**
     * `saveDateEdit`: an empty date clears the due date of the entries with
     * this id, a valid one replaces it; an invalid one only sets the editor's
     * error and keeps the editor open.
     */
    method SaveDateEdit(id: int, today: Date)
      requires IsValid(today)
      modifies this
      ensures SavedDateEdit(id, today)
    {
      var validation := if editingDate != "" then ValidateDate(editingDate, today) else Accepted;
      if !validation.isValid {
        editDateError := validation.error;
      } else {
        editDateError := "";
        var newTodos := WithDueDate(todos, id, DateOrNull(editingDate));
        todos := newTodos;
        SaveTodos(newTodos);
        editingDateId := None;
        editingDate := "";
      }
    }

    method CancelDateEdit()
      modifies this
      ensures CancelledDateEdit()
    {
      editingDateId := None;
      editingDate := "";
      editDateError := "";
    }

    /** `handleDateEditKeyDown`: Enter saves, Escape cancels, other keys do nothing. */
    method HandleDateEditKeyDown(key: string, id: int, today: Date)
      requires IsValid(today)
      modifies this
      ensures key == "Enter" ==> SavedDateEdit(id, today)
      ensures key == "Escape" ==> CancelledDateEdit()
      ensures key != "Enter" && key != "Escape" ==> unchanged(this)
    {
      if key == "Enter" {
        SaveDateEdit(id, today);
      } else if key == "Escape" {
        CancelDateEdit();
      }
    }

    /**
     * `clearAllData`, with the user's answer to the confirmation dialog as
     * `confirmed`: the list empties, the storage key is removed and saving is
     * suspended until `EndClearing`.
     */
    method ClearAllData(confirmed: bool)
      modifies this
      ensures confirmed ==> todos == [] && stored == Absent && isClearing
      ensures !confirmed ==> todos == old(todos) && stored == old(stored) && isClearing == old(isClearing)
      ensures Draft() == old(Draft()) && TextEdit() == old(TextEdit()) && DateEdit() == old(DateEdit())
    {
      if confirmed {
        isClearing := true;
        stored := Absent;
        todos := [];
      }
    }

    /** The timer that ends the clearing window: saving resumes. */
    method EndClearing()
      modifies this`isClearing
      ensures !isClearing
    {
      isClearing := false;
    }
  }

  /** Add a task, complete it, delete it: the statistics follow, and storage holds each list. */
  method BuyMilkScenario(id: int, today: Date)
    requires IsValid(today)
  {
    var app := new TodoApp(Absent);
    app.SetInputValue("Buy milk");
    assert Trim("Buy milk") == "Buy milk" by { TrimOfUnpadded("Buy milk"); }
    app.HandleKeyDown("Enter", true, id, today);
    assert app.todos == [Todo(id, "Buy milk", false, None)] && app.Synced();
    assert app.Statistics() == Statistics(1, 0, 1);
    app.ToggleTodo(id);
    assert app.todos == [Todo(id, "Buy milk", true, None)];
    assert app.Statistics() == Statistics(1, 1, 0);
    app.DeleteTodo(id);
    assert app.todos == [] && app.Synced();
    assert app.Statistics() == Statistics(0, 0, 0);
  }
}
