/**
 * The in-memory to-do `CreateViewModel` with one draft string and a list.
 * The to-do app and the Room app carry the same class, line for line, over
 * the same `TodoData` record; this module models both copies.
 */
module TodoList {
  import opened KotlinText
  import opened KotlinLists

  /** A to-do. Its `id` is the clock reading at creation. */
  datatype TodoData = TodoData(id: int, text: string, isCompleted: bool)

  /**
   * The list `toggleCompleted` publishes: the flag of every to-do carrying
   * `id` is negated, ids and texts are kept, and every other to-do is left
   * alone.
   */
  function Toggled(list: seq<TodoData>, id: int): (r: seq<TodoData>)
    ensures |r| == |list|
    ensures forall i :: 0 <= i < |list| ==>
      && r[i].id == list[i].id
      && r[i].text == list[i].text
      && r[i].isCompleted == (list[i].isCompleted != (list[i].id == id))
  {
    if list == [] then []
    else
      var t := list[0];
      [if t.id == id then t.(isCompleted := !t.isCompleted) else t] + Toggled(list[1..], id)
  }

  /** Toggling the same to-do twice gives back the list as it was. */
  lemma {:induction false} ToggleTwice(list: seq<TodoData>, id: int)
    ensures Toggled(Toggled(list, id), id) == list
  {
    if list != [] {
      ToggleTwice(list[1..], id);
      assert Toggled(list, id)[1..] == Toggled(list[1..], id);
    }
  }

  class CreateViewModel {
    var todo: string
    var todoList: seq<TodoData>

    /** An empty draft and no to-dos. */
    constructor ()
      ensures todo == "" && todoList == []
    {
      todo := "";
      todoList := [];
    }

    /** The draft becomes `newText`; the list stays. */
    method UpdateTodo(newText: string)
      modifies this
      ensures todo == newText && todoList == old(todoList)
    {
      todo := newText;
    }

    /**
     * With a draft that is not blank, a new to-do made of it (not completed,
     * carrying the clock reading `id`) goes to the end of the list and the
     * draft is emptied. With a blank draft nothing happens.
     */
    method AddTodo(id: int)
      modifies this
      ensures !IsBlank(old(todo)) ==>
        todoList == old(todoList) + [TodoData(id, old(todo), false)] && todo == ""
      ensures IsBlank(old(todo)) ==> todoList == old(todoList) && todo == old(todo)
    {
      var currentText := todo;
      if !IsBlank(currentText) {
        var newTodo := TodoData(id, currentText, false);
        todoList := todoList + [newTodo];
        todo := "";
      }
    }

    /** The first to-do equal to `item` (all three fields) leaves the list; the draft stays. */
    method RemoveTodo(item: TodoData)
      modifies this
      ensures todoList == RemoveFirst(old(todoList), item)
      ensures todo == old(todo)
    {
      todoList := RemoveFirst(todoList, item);
    }

    /** The flag of every to-do carrying `item`'s id is negated; the draft stays. */
    method ToggleCompleted(item: TodoData)
      modifies this
      ensures todoList == Toggled(old(todoList), item.id)
      ensures todo == old(todo)
    {
      todoList := Toggled(todoList, item.id);
    }
  }

  /**
   * Adding a to-do and toggling it marks it completed: the list ends with
   * the new to-do, its flag set. Older to-dos that share the clock reading
   * are toggled too, as the source does.
   */
  method AddThenToggle(vm: CreateViewModel, id: int)
    requires !IsBlank(vm.todo)
    modifies vm
    ensures |vm.todoList| == |old(vm.todoList)| + 1
    ensures vm.todoList[|vm.todoList| - 1] == TodoData(id, old(vm.todo), true)
    ensures vm.todo == ""
  {
    var text := vm.todo;
    vm.AddTodo(id);
    vm.ToggleCompleted(TodoData(id, text, false));
  }
}
