/**
 * The Room app's `Todo` entity and the two handlers of its home screen that
 * decide which record is handed to the database: the add button and the
 * done-toggle of a row. The database itself is outside the model; each
 * handler returns the insert or update it issues.
 */
module RoomScreen {
  import opened Nullable
  import opened KotlinText

  /** A stored to-do. An `id` of 0 asks the database to generate one on insert. */
  datatype Todo = Todo(id: int, title: string, isDone: bool)

  /** `Todo(title = title)`: the defaults are id 0 and not done. */
  function NewTodo(title: string): (t: Todo)
    ensures t.id == 0 && t.title == title && !t.isDone
  {
    Todo(0, title, false)
  }

  /**
   * The record the row's done-toggle hands to `update`:
   * `todo.copy(isDone = !todo.isDone)`, same id and title.
   */
  function ToggledDone(todo: Todo): (t: Todo)
    ensures t.id == todo.id && t.title == todo.title && t.isDone != todo.isDone
  {
    todo.(isDone := !todo.isDone)
  }

  /** Toggling the copy twice gives back the original record. */
  lemma ToggleTwice(todo: Todo)
    ensures ToggledDone(ToggledDone(todo)) == todo
  {
  }

  /** The home screen's input field state. */
  class HomeScreen {
    var currentInputText: string

    constructor ()
      ensures currentInputText == ""
    {
      currentInputText := "";
    }

    /** Typing into the field replaces its text. */
    method OnValueChange(newText: string)
      modifies this
      ensures currentInputText == newText
    {
      currentInputText := newText;
    }

    /**
     * The add button: with text that is not blank, one insert of a new
     * to-do titled with it is issued and the field is emptied; with blank
     * text no insert is issued and the field keeps its text.
     */
    method OnFabClick() returns (insert: Option<Todo>)
      modifies this
      ensures !IsBlank(old(currentInputText)) ==>
        insert == Some(Todo(0, old(currentInputText), false)) && currentInputText == ""
      ensures IsBlank(old(currentInputText)) ==>
        insert == None && currentInputText == old(currentInputText)
    {
      insert := None;
      if !IsBlank(currentInputText) {
        var newTodo := NewTodo(currentInputText);
        insert := Some(newTodo);
        currentInputText := "";
      }
    }
  }
}
