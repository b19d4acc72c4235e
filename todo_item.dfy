/**
 * The per-item rules of the TODO list: whether a due date is overdue or due
 * today (the same two predicates appear in the page and in the item
 * component), the item's class list, and the key and blur handlers of the
 * inline text and date editors, which only decide which callback to call.
 */
module TodoItem {
  import opened Wrappers
  import opened CivilDate
  import opened JsText
  import opened DateString
  import opened Todos

  /**
   * The civil day `new Date(dueDate)` stands for, when the due date is a
   * `YYYY-MM-DD` string naming an existing date; null, empty and any other
   * string name no day.
   */
  function DueDay(dueDate: Option<string>): (r: Option<Date>)
    ensures r.Some? <==> dueDate.Some? && IsFullDateShape(dueDate.value) && IsValid(ParseFullDate(dueDate.value))
    ensures r.Some? ==> IsValid(r.value) && r.value == ParseFullDate(dueDate.value)
  {
    if dueDate.Some? && IsFullDateShape(dueDate.value) && IsValid(ParseFullDate(dueDate.value))
    then Some(ParseFullDate(dueDate.value))
    else None
  }

  /** `isOverdue(dueDate)`: the due day's midnight lies before today's. */
  predicate IsOverdue(dueDate: Option<string>, today: Date)
    requires IsValid(today)
  {
    match DueDay(dueDate)
    case None => false
    case Some(due) => EpochDay(due) < EpochDay(today)
  }

  /** `isDueToday(dueDate)`: the due day's midnight is today's. */
  predicate IsDueToday(dueDate: Option<string>, today: Date)
    requires IsValid(today)
  {
    match DueDay(dueDate)
    case None => false
    case Some(due) => EpochDay(due) == EpochDay(today)
  }

  /** A null or empty due date is neither overdue nor due today. */
  lemma NoDueDateNoStatus(today: Date)
    requires IsValid(today)
    ensures !IsOverdue(None, today) && !IsDueToday(None, today)
    ensures !IsOverdue(Some(""), today) && !IsDueToday(Some(""), today)
  {
  }

  /** Overdue means: a due day exists and lies strictly before today. */
  lemma IsOverdueIff(dueDate: Option<string>, today: Date)
    requires IsValid(today)
    ensures IsOverdue(dueDate, today) <==> DueDay(dueDate).Some? && Before(DueDay(dueDate).value, today)
  {
    if DueDay(dueDate).Some? {
      EpochDayOrder(DueDay(dueDate).value, today);
    }
  }

  /** Due today means: the due day is today. */
  lemma IsDueTodayIff(dueDate: Option<string>, today: Date)
    requires IsValid(today)
    ensures IsDueToday(dueDate, today) <==> DueDay(dueDate) == Some(today)
  {
    if DueDay(dueDate).Some? {
      EpochDayOrder(DueDay(dueDate).value, today);
    }
  }

  /** A due date is never both overdue and due today. */
  lemma NotOverdueAndDueToday(dueDate: Option<string>, today: Date)
    requires IsValid(today)
    ensures !(IsOverdue(dueDate, today) && IsDueToday(dueDate, today))
  {
  }

  /** For a date as the calendar formats it, the status is the chronological comparison with today. */
  lemma StatusOfFormattedDate(d: Date, today: Date)
    requires IsValid(d) && 1000 <= d.year <= 9999 && IsValid(today)
    ensures IsOverdue(Some(FormatYmd(d)), today) <==> Before(d, today)
    ensures IsDueToday(Some(FormatYmd(d)), today) <==> d == today
  {
    FormatYmdRoundTrip(d);
    EpochDayOrder(d, today);
  }

  const ItemClass: string := "todo-item"
  const CompletedClasses: string := "todo-item--completed completed"
  const OverdueClasses: string := "todo-item--overdue overdue"
  const DueTodayClasses: string := "todo-item--due-today due-today"

  /** The class array of an item after `filter(Boolean)`. */
  function ItemClassList(todo: Todo, today: Date): seq<string>
    requires IsValid(today)
  {
    NonEmpty(ItemClassEntries(todo, today))
  }

  /** The four entries of the class array before filtering. */
  function ItemClassEntries(todo: Todo, today: Date): seq<string>
    requires IsValid(today)
  {
    [
      ItemClass,
      if todo.completed then CompletedClasses else "",
      if IsOverdue(todo.dueDate, today) && !todo.completed then OverdueClasses else "",
      if IsDueToday(todo.dueDate, today) && !todo.completed then DueTodayClasses else ""
    ]
  }

  /** `itemClasses`: the class array joined with spaces. */
  function ItemClasses(todo: Todo, today: Date): string
    requires IsValid(today)
  {
    Join(ItemClassList(todo, today), " ")
  }

  /** A completed item shows neither the overdue nor the due-today highlight. */
  lemma CompletedItemClasses(todo: Todo, today: Date)
    requires IsValid(today) && todo.completed
    ensures ItemClassList(todo, today) == [ItemClass, CompletedClasses]
    ensures ItemClasses(todo, today) == ItemClass + " " + CompletedClasses
  {
    var e := ItemClassEntries(todo, today);
    assert e == [ItemClass, CompletedClasses, "", ""];
    NonEmptyOfFour(e[0], e[1], e[2], e[3]);
    JoinTwo(ItemClass, CompletedClasses, " ");
  }

  /** An open item carries each highlight exactly when its predicate holds, and at most one of them. */
  lemma PendingItemClasses(todo: Todo, today: Date)
    requires IsValid(today) && !todo.completed
    ensures ItemClass in ItemClassList(todo, today)
    ensures CompletedClasses !in ItemClassList(todo, today)
    ensures OverdueClasses in ItemClassList(todo, today) <==> IsOverdue(todo.dueDate, today)
    ensures DueTodayClasses in ItemClassList(todo, today) <==> IsDueToday(todo.dueDate, today)
    ensures |ItemClassList(todo, today)| <= 2
  {
    NotOverdueAndDueToday(todo.dueDate, today);
    var e := ItemClassEntries(todo, today);
    NonEmptyOfFour(e[0], e[1], e[2], e[3]);
  }

  /** The class string of an open item: the base class, followed by the highlight it has, if any. */
  lemma PendingItemClassString(todo: Todo, today: Date)
    requires IsValid(today) && !todo.completed
    ensures !IsOverdue(todo.dueDate, today) && !IsDueToday(todo.dueDate, today) ==>
      ItemClasses(todo, today) == ItemClass
    ensures IsOverdue(todo.dueDate, today) ==> ItemClasses(todo, today) == ItemClass + " " + OverdueClasses
    ensures IsDueToday(todo.dueDate, today) ==> ItemClasses(todo, today) == ItemClass + " " + DueTodayClasses
  {
    NotOverdueAndDueToday(todo.dueDate, today);
    var e := ItemClassEntries(todo, today);
    NonEmptyOfFour(e[0], e[1], e[2], e[3]);
    if IsOverdue(todo.dueDate, today) {
      assert e == [ItemClass, "", OverdueClasses, ""];
      assert ItemClassList(todo, today) == [ItemClass, OverdueClasses];
      JoinTwo(ItemClass, OverdueClasses, " ");
    } else if IsDueToday(todo.dueDate, today) {
      assert e == [ItemClass, "", "", DueTodayClasses];
      assert ItemClassList(todo, today) == [ItemClass, DueTodayClasses];
      JoinTwo(ItemClass, DueTodayClasses, " ");
    } else {
      assert e == [ItemClass, "", "", ""];
      assert ItemClassList(todo, today) == [ItemClass];
    }
  }

  /** The callbacks an item can call from its editors. */
  datatype Callback =
    | EditText(id: int, text: string)
    | CancelEdit
    | EditDate(id: int, date: Option<string>)
    | CancelDateEdit
    | NoCall

  /**
   * Leaving the text editor commits the trimmed text: an edit of this item
   * whose text is the draft with the whitespace at both ends removed, empty
   * exactly when the draft is blank, and otherwise neither starting nor
   * ending with whitespace.
   */
  function TextEditBlur(todo: Todo, editingText: string): (c: Callback)
    ensures c.EditText? && c.id == todo.id
    ensures c.text == "" <==> IsBlank(editingText)
    ensures c.text != "" ==> !IsJsWhitespace(c.text[0]) && !IsJsWhitespace(c.text[|c.text| - 1])
    ensures exists i :: TrimmedAt(editingText, c.text, i)
  {
    TrimSpec(editingText);
    TrimEmptyIffBlank(editingText);
    var t := Trim(editingText);
    var i := |editingText| - |TrimStart(editingText)|;
    assert TrimmedAt(editingText, t, i);
    EditText(todo.id, t)
  }

  /** Leaving the date editor commits the edited date, or null when it is empty. */
  function DateEditBlur(todo: Todo, editingDate: string): (c: Callback)
    ensures c.EditDate? && c.id == todo.id
    ensures c.date.None? <==> editingDate == ""
    ensures c.date.Some? ==> c.date.value == editingDate
  {
    EditDate(todo.id, DateOrNull(editingDate))
  }

  /**
   * `handleTextEditKeyDown`: Enter commits as blur does, Escape calls the
   * optional cancel callback when one was given, every other key does nothing.
   */
  function TextEditKeyDown(key: string, todo: Todo, editingText: string, hasCancelEdit: bool): (c: Callback)
    ensures key == "Enter" ==> c == TextEditBlur(todo, editingText)
    ensures key == "Escape" ==> c == (if hasCancelEdit then CancelEdit else NoCall)
    ensures key != "Enter" && key != "Escape" ==> c == NoCall
  {
    if key == "Enter" then EditText(todo.id, Trim(editingText))
    else if key == "Escape" && hasCancelEdit then CancelEdit
    else NoCall
  }

  /**
   * `handleDateEditKeyDown`: Enter commits as blur does, Escape calls the
   * optional cancel callback when one was given, every other key does nothing.
   */
  function DateEditKeyDown(key: string, todo: Todo, editingDate: string, hasCancelDateEdit: bool): (c: Callback)
    ensures key == "Enter" ==> c == DateEditBlur(todo, editingDate)
    ensures key == "Escape" ==> c == (if hasCancelDateEdit then CancelDateEdit else NoCall)
    ensures key != "Enter" && key != "Escape" ==> c == NoCall
  {
    if key == "Enter" then EditDate(todo.id, if editingDate == "" then None else Some(editingDate))
    else if key == "Escape" && hasCancelDateEdit then CancelDateEdit
    else NoCall
  }
}
