/**
 * The memo app's `CreateViewModel`: a list of memos, two draft buffers
 * (title and content) that the add and edit screens type into, and the memo
 * currently selected for editing. Every command reassigns some of these four
 * fields; the list itself is replaced by a new list each time.
 */
module Memo {
  import opened Nullable
  import opened KotlinText
  import opened KotlinLists

  /** A memo. Its `id` is the clock reading at creation and is never changed afterwards. */
  datatype TodoData = TodoData(id: int, title: string, content: string, isCompleted: bool)

  /** The guard of adding and editing: at least one of the two texts is not blank. */
  predicate HasText(title: string, content: string) {
    !IsBlank(title) || !IsBlank(content)
  }

  /**
   * The list `updateList` publishes: every memo carrying `memoId` takes the
   * new title and content; its id and completion flag stay, and every other
   * memo is left alone.
   */
  function WithText(list: seq<TodoData>, memoId: int, newTitle: string, newContent: string): (r: seq<TodoData>)
    ensures |r| == |list|
    ensures forall i :: 0 <= i < |list| ==>
      && r[i].id == list[i].id
      && r[i].isCompleted == list[i].isCompleted
      && (list[i].id == memoId ==> r[i].title == newTitle && r[i].content == newContent)
      && (list[i].id != memoId ==> r[i] == list[i])
  {
    if list == [] then []
    else
      var m := list[0];
      [if m.id == memoId then m.(title := newTitle, content := newContent) else m]
        + WithText(list[1..], memoId, newTitle, newContent)
  }

  /**
   * The list `toggleCompleted` publishes: the completion flag of every memo
   * carrying `id` is negated; ids, titles and contents are kept, and so is the
   * flag of every other memo.
   */
  function Toggled(list: seq<TodoData>, id: int): (r: seq<TodoData>)
    ensures |r| == |list|
    ensures forall i :: 0 <= i < |list| ==>
      && r[i].id == list[i].id
      && r[i].title == list[i].title
      && r[i].content == list[i].content
      && r[i].isCompleted == (list[i].isCompleted != (list[i].id == id))
  {
    if list == [] then []
    else
      var m := list[0];
      [if m.id == id then m.(isCompleted := !m.isCompleted) else m] + Toggled(list[1..], id)
  }

  /** Toggling the same memo twice gives back the list as it was. */
  lemma {:induction false} ToggleTwice(list: seq<TodoData>, id: int)
    ensures Toggled(Toggled(list, id), id) == list
  {
    if list != [] {
      ToggleTwice(list[1..], id);
      assert Toggled(list, id)[1..] == Toggled(list[1..], id);
    }
  }

  /**
   * `list.find { it.id == memoId }`: the first memo carrying the id, or null
   * when no memo does.
   */
  function FindById(list: seq<TodoData>, memoId: int): (r: Option<TodoData>)
    ensures r.None? <==> forall i :: 0 <= i < |list| ==> list[i].id != memoId
    ensures r.Some? ==> r.value.id == memoId
    ensures r.Some? ==>
      exists i :: 0 <= i < |list| && list[i] == r.value && forall j :: 0 <= j < i ==> list[j].id != memoId
  {
    if list == [] then None
    else if list[0].id == memoId then Some(list[0])
    else
      var r := FindById(list[1..], memoId);
      if r.Some? then
        var i :| 0 <= i < |list[1..]| && list[1..][i] == r.value && forall j :: 0 <= j < i ==> list[1..][j].id != memoId;
        assert list[i + 1] == r.value && forall j :: 0 <= j < i + 1 ==> list[j].id != memoId;
        r
      else
        r
  }

  /**
   * Editing a memo and then selecting it by its id loads the edited memo:
   * same id and completion flag as before, the new title and content.
   */
  lemma {:induction false} EditThenSelect(list: seq<TodoData>, memoId: int, newTitle: string, newContent: string)
    ensures FindById(WithText(list, memoId, newTitle, newContent), memoId) ==
      match FindById(list, memoId)
      case None => None
      case Some(m) => Some(m.(title := newTitle, content := newContent))
  {
    if list != [] && list[0].id != memoId {
      EditThenSelect(list[1..], memoId, newTitle, newContent);
      assert WithText(list, memoId, newTitle, newContent)[1..] == WithText(list[1..], memoId, newTitle, newContent);
    }
  }

  /** A freshly added memo sits at the top, so selecting its id finds it even if an older memo shares the id. */
  lemma AddThenSelect(list: seq<TodoData>, id: int, title: string, content: string)
    ensures FindById([TodoData(id, title, content, false)] + list, id) == Some(TodoData(id, title, content, false))
  {
  }

  class CreateViewModel {
    var currentTitle: string
    var currentContent: string
    var todoList: seq<TodoData>
    var selectedTodo: Option<TodoData>

    /** Empty drafts, no memos, nothing selected. */
    constructor ()
      ensures currentTitle == "" && currentContent == ""
      ensures todoList == [] && selectedTodo == None
    {
      currentTitle, currentContent := "", "";
      todoList := [];
      selectedTodo := None;
    }

    /** The title draft becomes `newTitle`; nothing else changes. */
    method UpdateCurrentTitle(newTitle: string)
      modifies this
      ensures currentTitle == newTitle
      ensures currentContent == old(currentContent)
      ensures todoList == old(todoList) && selectedTodo == old(selectedTodo)
    {
      currentTitle := newTitle;
    }

    /** The content draft becomes `newContent`; nothing else changes. */
    method UpdateCurrentContent(newContent: string)
      modifies this
      ensures currentContent == newContent
      ensures currentTitle == old(currentTitle)
      ensures todoList == old(todoList) && selectedTodo == old(selectedTodo)
    {
      currentContent := newContent;
    }

    /**
     * With some text in the drafts, a new memo made of them (not completed,
     * carrying the clock reading `id`) goes to the top of the list and both
     * drafts are emptied. With both drafts blank nothing happens. The
     * selection is never touched.
     */
    method AddTodo(id: int)
      modifies this
      ensures HasText(old(currentTitle), old(currentContent)) ==>
        && todoList == [TodoData(id, old(currentTitle), old(currentContent), false)] + old(todoList)
        && currentTitle == "" && currentContent == ""
      ensures !HasText(old(currentTitle), old(currentContent)) ==>
        && todoList == old(todoList)
        && currentTitle == old(currentTitle) && currentContent == old(currentContent)
      ensures selectedTodo == old(selectedTodo)
    {
      var title := currentTitle;
      var content := currentContent;
      if HasText(title, content) {
        var newMemo := TodoData(id, title, content, false);
        todoList := [newMemo] + todoList;
        currentTitle := "";
        currentContent := "";
      }
    }

    /**
     * With some text in `newTitle` or `newContent`, every memo carrying
     * `memoId` takes them, the drafts are emptied and the selection is
     * dropped, whether or not any memo matched. With both blank nothing
     * happens.
     */
    method UpdateList(memoId: int, newTitle: string, newContent: string)
      modifies this
      ensures HasText(newTitle, newContent) ==>
        && todoList == WithText(old(todoList), memoId, newTitle, newContent)
        && currentTitle == "" && currentContent == "" && selectedTodo == None
      ensures !HasText(newTitle, newContent) ==>
        && todoList == old(todoList) && selectedTodo == old(selectedTodo)
        && currentTitle == old(currentTitle) && currentContent == old(currentContent)
    {
      if HasText(newTitle, newContent) {
        todoList := WithText(todoList, memoId, newTitle, newContent);
        currentTitle := "";
        currentContent := "";
        selectedTodo := None;
      }
    }

    /**
     * The first memo equal to `item` (all four fields) leaves the list. If the
     * selected memo carries `item`'s id, the selection and both drafts are
     * cleared, whether or not anything was removed; otherwise they stay.
     */
    method RemoveTodo(item: TodoData)
      modifies this
      ensures todoList == RemoveFirst(old(todoList), item)
      ensures old(selectedTodo).Some? && old(selectedTodo).value.id == item.id ==>
        selectedTodo == None && currentTitle == "" && currentContent == ""
      ensures !(old(selectedTodo).Some? && old(selectedTodo).value.id == item.id) ==>
        && selectedTodo == old(selectedTodo)
        && currentTitle == old(currentTitle) && currentContent == old(currentContent)
    {
      var removed := item in todoList;
      if removed {
        todoList := RemoveFirst(todoList, item);
      }
      if selectedTodo.Some? && selectedTodo.value.id == item.id {
        selectedTodo := None;
        currentTitle := "";
        currentContent := "";
      }
    }

    /** The completion flag of every memo carrying `item`'s id is negated; drafts and selection stay. */
    method ToggleCompleted(item: TodoData)
      modifies this
      ensures todoList == Toggled(old(todoList), item.id)
      ensures selectedTodo == old(selectedTodo)
      ensures currentTitle == old(currentTitle) && currentContent == old(currentContent)
    {
      todoList := Toggled(todoList, item.id);
    }

    /**
     * The first memo carrying `memoId` becomes the selection and its title and
     * content are copied into the drafts; with no such memo the selection is
     * dropped and the drafts emptied. The list is not touched.
     */
    method SelectTodoById(memoId: int)
      modifies this
      ensures selectedTodo == FindById(old(todoList), memoId)
      ensures selectedTodo.Some? ==>
        currentTitle == selectedTodo.value.title && currentContent == selectedTodo.value.content
      ensures selectedTodo.None? ==> currentTitle == "" && currentContent == ""
      ensures todoList == old(todoList)
    {
      var memo := FindById(todoList, memoId);
      selectedTodo := memo;
      currentTitle := if memo.Some? then memo.value.title else "";
      currentContent := if memo.Some? then memo.value.content else "";
    }

    /** No selection and empty drafts; the list is not touched. */
    method ClearSelectedTodoAndFields()
      modifies this
      ensures selectedTodo == None && currentTitle == "" && currentContent == ""
      ensures todoList == old(todoList)
    {
      selectedTodo := None;
      currentTitle := "";
      currentContent := "";
    }
  }

  /**
   * The selection lifecycle on one view-model: selecting a memo by its id and
   * then removing it clears the selection and the drafts, even when the
   * selected memo is an older one sharing the id.
   */
  method SelectionLifecycle(vm: CreateViewModel, item: TodoData)
    requires item in vm.todoList
    modifies vm
    ensures vm.todoList == RemoveFirst(old(vm.todoList), item)
    ensures vm.selectedTodo == None && vm.currentTitle == "" && vm.currentContent == ""
  {
    vm.SelectTodoById(item.id);
    vm.RemoveTodo(item);
  }
}
