# Android practice apps: view-models and screen rules

This project models the state-handling core of six small Android practice
apps written in Kotlin with Jetpack Compose:

- **Memo**: the `CreateViewModel` behind the memo list. It holds the list of
  memos, a title draft, a content draft and the selected memo. Its commands
  are add (to the top of the list), edit by id, remove, toggle, select by id
  and clear.
- **todolist1** and **Room**: the simpler `CreateViewModel`, with one draft
  and a list of to-dos. Its commands are add (to the end of the list),
  remove and toggle. The two apps carry the same class line for line, and
  the `TodoList` module models both copies.
- **Room** home screen: what the add button and a row's done-toggle hand to
  the database.
- **LoginDB** screens:
  - the case-insensitive name search;
  - the set of checked user ids, with its select-all box and bulk delete;
  - how the add screen and the detail screen build the `User` record they
    store.
- **VMEx**: a counter kept in a state flow, and a counter kept in a nullable
  live-data cell.
- **MyApplication**:
  - the bottom navigation bar's three items;
  - the rule that decides which item is highlighted for the current
    destination;
  - the counter screen.

Each piece keeps the source's own form. A view-model, or a screen's
remembered state, is a `class` whose methods reassign its fields and state
the whole new state. The rules those methods apply are functions, such as
the toggled list, the edited list, the first memo with an id, the shown
users, the record to insert and the highlighted item. Lemmas about those
functions give the properties: toggling twice changes nothing, editing then
selecting loads the edit, the search keeps order and is idempotent, and
saving an unchanged form issues the user unchanged.

The database, navigation and rendering are outside the model. Where a
screen handler would call the database, the model's method returns the
insert, update or deletes it issues. Where the source reads the clock for a
new id, the id is a parameter.

The Kotlin library calls the core relies on are modelled in two shared
modules:

- `KotlinText`: `isBlank`, `contains(ignoreCase = true)`, `startsWith`,
  `substringBefore` and `ifBlank { null }`;
- `KotlinLists`: `MutableList.remove` and `filter`. `IndexOf` is a helper
  that states where `remove` cuts the list; no app calls `indexOf`.

Optional values use `Nullable.Option`.

## Model

| member | source | states |
|---|---|---|
| Nullable.Option.OrElse | VMEx/app/src/main/java/com/example/vmex/MainActivity.kt:109-112 | `x ?: d` gives the held value when there is one and `d` otherwise |
| KotlinText.IsBlank | LoginDB/app/src/main/java/com/example/logindb/Screen/Screen.kt:71 | a text is blank when every character in it is whitespace, so the empty text is blank |
| KotlinText.ContainsIgnoreCase | LoginDB/app/src/main/java/com/example/logindb/Screen/Screen.kt:75 | a text contains a query, ignoring case, when at some position the query's characters match the text's after case folding |
| KotlinText.StartsWith | MyApplication/app/src/main/java/com/example/myapplication/MainActivity.kt:128 | a text starts with a prefix when the prefix is no longer than the text and equals its first characters |
| KotlinText.FoldCase | LoginDB/app/src/main/java/com/example/logindb/Screen/Screen.kt:75 | maps each upper-case ASCII letter to its lower-case letter and leaves every other character unchanged |
| KotlinText.SubstringBefore | MyApplication/app/src/main/java/com/example/myapplication/MainActivity.kt:128 | the result is a prefix of the input and contains no delimiter; when it is shorter than the input, the delimiter follows it; with no delimiter present it is the whole input |
| KotlinText.IfBlankNull | LoginDB/app/src/main/java/com/example/logindb/Screen/Screen.kt:281-282 | null exactly when the text is blank, otherwise the text itself |
| KotlinLists.RemoveFirst | todolist1/app/src/main/java/com/example/todolist1/Screen.kt/ViewModel.kt:32-36 | removing an element that is present shortens the list by one; removing an absent one leaves the list as it was |
| KotlinLists.RemoveFirstAt | Memo/app/src/main/java/com/example/memo/Screen/ViewModel.kt:77-81 | removing a present element drops exactly the element at its first index, and the elements before and after it stay in order |
| KotlinLists.RemoveFirstCount | Room/app/src/main/java/com/example/room/Screen/ViewModel.kt:52-56 | as multisets, removal takes one copy of the element when present, and every other element keeps its count |
| KotlinLists.Filter | LoginDB/app/src/main/java/com/example/logindb/Screen/Screen.kt:74-76 | the result is no longer than the input, and everything in it is in the input and satisfies the predicate |
| KotlinLists.FilterMultiplicity | LoginDB/app/src/main/java/com/example/logindb/Screen/Screen.kt:191 | an element that satisfies the predicate occurs in the result as often as in the input; any other element never occurs |
| KotlinLists.FilterMembership | LoginDB/app/src/main/java/com/example/logindb/Screen/Screen.kt:74-76 | an element is in the result if and only if it is in the input and satisfies the predicate |
| KotlinLists.FilterIsSubsequence | LoginDB/app/src/main/java/com/example/logindb/Screen/Screen.kt:74-76 | the result keeps the input's order, as a subsequence of it |
| KotlinLists.FilterIdempotent | LoginDB/app/src/main/java/com/example/logindb/Screen/Screen.kt:69-80 | filtering the result again with the same predicate changes nothing |
| KotlinLists.FilterAll | LoginDB/app/src/main/java/com/example/logindb/Screen/Screen.kt:74-76 | a predicate that holds for every element lets the whole list through |
| Memo.HasText | Memo/app/src/main/java/com/example/memo/Screen/ViewModel.kt:44 | the guard of adding and editing: the title or the content is not blank |
| Memo.WithText | Memo/app/src/main/java/com/example/memo/Screen/ViewModel.kt:60-66 | the edit keeps the list's length, every id and every completion flag; each memo with the id takes the new title and content; every other memo is unchanged |
| Memo.Toggled | Memo/app/src/main/java/com/example/memo/Screen/ViewModel.kt:93-99 | the toggle keeps the list's length, ids, titles and contents; the flag flips exactly on the memos with the id |
| Memo.ToggleTwice | Memo/app/src/main/java/com/example/memo/Screen/ViewModel.kt:91-101 | toggling the same id twice gives back the original list |
| Memo.FindById | Memo/app/src/main/java/com/example/memo/Screen/ViewModel.kt:105 | null exactly when no memo has the id; otherwise a memo with the id, at the first index carrying it |
| Memo.EditThenSelect | Memo/app/src/main/java/com/example/memo/Screen/ViewModel.kt:56-74 | after an edit, selecting the same id finds the memo found before, with the new title and content; with no such memo, still nothing |
| Memo.AddThenSelect | Memo/app/src/main/java/com/example/memo/Screen/ViewModel.kt:44-47 | a memo just added at the top is the one found for its id, even when an older memo shares the id |
| Memo.CreateViewModel.constructor | Memo/app/src/main/java/com/example/memo/Screen/ViewModel.kt:13-26 | the view-model starts with empty drafts, an empty list and no selection |
| Memo.CreateViewModel.UpdateCurrentTitle | Memo/app/src/main/java/com/example/memo/Screen/ViewModel.kt:29-31 | only the title draft changes |
| Memo.CreateViewModel.UpdateCurrentContent | Memo/app/src/main/java/com/example/memo/Screen/ViewModel.kt:34-36 | only the content draft changes |
| Memo.CreateViewModel.AddTodo | Memo/app/src/main/java/com/example/memo/Screen/ViewModel.kt:39-53 | when either draft is not blank, a new uncompleted memo goes to the top and both drafts are emptied; with both blank nothing changes; the selection never changes |
| Memo.CreateViewModel.UpdateList | Memo/app/src/main/java/com/example/memo/Screen/ViewModel.kt:56-74 | when either new text is not blank, the list is edited by id and the drafts and selection are cleared, even when no memo matched; with both blank nothing changes |
| Memo.CreateViewModel.RemoveTodo | Memo/app/src/main/java/com/example/memo/Screen/ViewModel.kt:77-88 | the first memo equal to the item is removed; the selection and drafts are cleared exactly when the selected memo has the item's id |
| Memo.CreateViewModel.ToggleCompleted | Memo/app/src/main/java/com/example/memo/Screen/ViewModel.kt:91-101 | the list becomes the toggled list for the item's id; the drafts and selection stay |
| Memo.CreateViewModel.SelectTodoById | Memo/app/src/main/java/com/example/memo/Screen/ViewModel.kt:104-109 | the selection becomes the first memo with the id and the drafts load its texts; with no such memo, the selection is null and the drafts are empty; the list stays |
| Memo.CreateViewModel.ClearSelectedTodoAndFields | Memo/app/src/main/java/com/example/memo/Screen/ViewModel.kt:112-116 | no selection and empty drafts; the list stays |
| Memo.SelectionLifecycle | Memo/app/src/main/java/com/example/memo/Screen/ViewModel.kt:83-87 | selecting a memo by its id and then removing it leaves no selection, empty drafts and the first equal memo removed, even when the selection was an older memo sharing the id |
| TodoList.Toggled | todolist1/app/src/main/java/com/example/todolist1/Screen.kt/ViewModel.kt:37-47 | the toggle keeps the list's length, ids and texts; the flag flips exactly on the to-dos with the id |
| TodoList.ToggleTwice | Room/app/src/main/java/com/example/room/Screen/ViewModel.kt:57-67 | toggling the same id twice gives back the original list |
| TodoList.CreateViewModel.constructor | todolist1/app/src/main/java/com/example/todolist1/Screen.kt/ViewModel.kt:12-15 | the view-model starts with an empty draft and an empty list |
| TodoList.CreateViewModel.UpdateTodo | todolist1/app/src/main/java/com/example/todolist1/Screen.kt/ViewModel.kt:16-18 | only the draft changes |
| TodoList.CreateViewModel.AddTodo | Room/app/src/main/java/com/example/room/Screen/ViewModel.kt:40-49 | a draft that is not blank becomes an uncompleted to-do at the end of the list and the draft is emptied; with a blank draft nothing changes |
| TodoList.CreateViewModel.RemoveTodo | todolist1/app/src/main/java/com/example/todolist1/Screen.kt/ViewModel.kt:32-36 | the first to-do equal to the item leaves the list; the draft stays |
| TodoList.CreateViewModel.ToggleCompleted | Room/app/src/main/java/com/example/room/Screen/ViewModel.kt:57-67 | the list becomes the toggled list for the item's id; the draft stays |
| TodoList.AddThenToggle | todolist1/app/src/main/java/com/example/todolist1/Screen.kt/ViewModel.kt:20-47 | adding a to-do and then toggling it grows the list by one and ends it with the new to-do marked completed; the draft is empty |
| RoomScreen.NewTodo | Room/app/src/main/java/com/example/room/Screen/ViewModel.kt:24-29 | the entity's defaults: id 0, which the database replaces, and not done |
| RoomScreen.ToggledDone | Room/app/src/main/java/com/example/room/Screen/Screen.kt:133 | the copy handed to update has the same id and title and the opposite done flag |
| RoomScreen.ToggleTwice | Room/app/src/main/java/com/example/room/Screen/Screen.kt:131-135 | toggling the copy twice gives back the original record |
| RoomScreen.HomeScreen.constructor | Room/app/src/main/java/com/example/room/Screen/Screen.kt:56 | the input field starts empty |
| RoomScreen.HomeScreen.OnValueChange | Room/app/src/main/java/com/example/room/Screen/Screen.kt:90-92 | typing replaces the field's text |
| RoomScreen.HomeScreen.OnFabClick | Room/app/src/main/java/com/example/room/Screen/Screen.kt:65-73 | text that is not blank issues exactly one insert of a new to-do with that title and empties the field; blank text issues nothing and keeps the field |
| LoginDbScreen.NameMatches | LoginDB/app/src/main/java/com/example/logindb/Screen/Screen.kt:75 | a user matches a query when their name contains it, ignoring case |
| LoginDbScreen.FilteredUsers | LoginDB/app/src/main/java/com/example/logindb/Screen/Screen.kt:69-80 | a blank query shows the whole list; no query shows more users than the list holds |
| LoginDbScreen.FilteredUsersExact | LoginDB/app/src/main/java/com/example/logindb/Screen/Screen.kt:74-76 | with a query that is not blank, a user is shown if and only if their name contains the query, ignoring case, and as often as the list holds them |
| LoginDbScreen.FilteredUsersInOrder | LoginDB/app/src/main/java/com/example/logindb/Screen/Screen.kt:69-80 | the shown users keep the list's order |
| LoginDbScreen.FilteredUsersIdempotent | LoginDB/app/src/main/java/com/example/logindb/Screen/Screen.kt:69-80 | searching the shown users again with the same query shows the same users |
| LoginDbScreen.UidsOf | LoginDB/app/src/main/java/com/example/logindb/Screen/Screen.kt:139 | the id set holds each user's id and only those ids |
| LoginDbScreen.UidsOfSize | LoginDB/app/src/main/java/com/example/logindb/Screen/Screen.kt:136-139 | with distinct ids, the id set has as many members as there are users |
| LoginDbScreen.UsersToDelete | LoginDB/app/src/main/java/com/example/logindb/Screen/Screen.kt:191 | every user to delete is in the full list and has a checked id |
| LoginDbScreen.UsersToDeleteExact | LoginDB/app/src/main/java/com/example/logindb/Screen/Screen.kt:191-192 | every user of the full list whose id is checked is deleted, including hidden ones, as often as they occur; no other user is deleted |
| LoginDbScreen.SelectAllCheckedAsWritten | LoginDB/app/src/main/java/com/example/logindb/Screen/Screen.kt:136 | the select-all test as written: something is shown and the number of checked ids equals the number of shown users |
| LoginDbScreen.SelectAllChecked | LoginDB/app/src/main/java/com/example/logindb/Screen/Screen.kt:136 | the select-all test as intended: something is shown and every shown user's id is checked |
| LoginDbScreen.SelectAllCheckedWithUncheckedUser | LoginDB/app/src/main/java/com/example/logindb/Screen/Screen.kt:136 | users Ann(1), Bob(2) and Bea(3), ids {1, 2} checked and query "b": the shown users are Bob and Bea, and the box as written is ticked although Bea is not checked, while the intended test leaves it unticked |
| LoginDbScreen.AsWrittenAgreesWithoutHiddenIds | LoginDB/app/src/main/java/com/example/logindb/Screen/Screen.kt:136 | when the ids are distinct and every checked id belongs to a shown user, the size test as written ticks the box exactly when every shown user is checked |
| LoginDbScreen.SelectAllThenChecked | LoginDB/app/src/main/java/com/example/logindb/Screen/Screen.kt:137-139 | ticking the select-all box over a non-empty list shows it ticked, by the intended test |
| LoginDbScreen.NothingSelectedUnchecked | LoginDB/app/src/main/java/com/example/logindb/Screen/Screen.kt:140-142 | with nothing checked the box never shows ticked |
| LoginDbScreen.NewUser | LoginDB/app/src/main/java/com/example/logindb/Screen/Screen.kt:274-292 | an insert is issued if and only if name and email are not blank; the new user has id 0, the given name and email, a blank phone or address as null, no registration date and not done, and may be stored |
| LoginDbScreen.LoadForm | LoginDB/app/src/main/java/com/example/logindb/Screen/Screen.kt:369-378 | the form takes the loaded user's fields, with each null optional field as "" |
| LoginDbScreen.EditedUser | LoginDB/app/src/main/java/com/example/logindb/Screen/Screen.kt:394-411 | an update is issued if and only if a user is loaded and name and email are not blank; it keeps the user's id, takes name, email and done flag from the form, takes phone, address and registration date from the form with blank ones as null, and may be stored |
| LoginDbScreen.OptionalFieldRoundTrip | LoginDB/app/src/main/java/com/example/logindb/Screen/Screen.kt:373-375 | an optional field that is null or not blank survives `?: ""` followed by `ifBlank { null }` |
| LoginDbScreen.SaveUnchangedIsIdentity | LoginDB/app/src/main/java/com/example/logindb/Screen/Screen.kt:369-405 | loading a storable user into the detail form and saving at once issues the same user |
| LoginDbScreen.NewUserSurvivesEdit | LoginDB/app/src/main/java/com/example/logindb/Screen/Screen.kt:276-284 | a user built by the add screen, opened and saved unchanged on the detail screen, is issued unchanged |
| LoginDbScreen.HomeScreen.constructor | LoginDB/app/src/main/java/com/example/logindb/Screen/Screen.kt:64-66 | the search starts empty with nothing checked |
| LoginDbScreen.HomeScreen.OnQueryChange | LoginDB/app/src/main/java/com/example/logindb/Screen/Screen.kt:95-97 | typing replaces the search text; the checked ids stay |
| LoginDbScreen.HomeScreen.OnClearQuery | LoginDB/app/src/main/java/com/example/logindb/Screen/Screen.kt:106 | the clear icon empties the search; the checked ids stay |
| LoginDbScreen.HomeScreen.SelectAllBoxChecked | LoginDB/app/src/main/java/com/example/logindb/Screen/Screen.kt:136 | the box on screen is ticked by the size test as written, over the shown users and the checked ids |
| LoginDbScreen.HomeScreen.OnSelectAllChange | LoginDB/app/src/main/java/com/example/logindb/Screen/Screen.kt:137-143 | ticking sets the checked ids to exactly the shown users' ids, unticking checks nothing; after a tick over distinct shown users the box shows ticked |
| LoginDbScreen.HomeScreen.OnSelectAllClick | LoginDB/app/src/main/java/com/example/logindb/Screen/Screen.kt:130-143 | a click on the box, which is drawn only over a non-empty shown list, reports the opposite of what the box shows: a box shown ticked unchecks every id, hidden ones included, and one shown unticked checks exactly the shown users |
| LoginDbScreen.HomeScreen.OnItemCheckedChange | LoginDB/app/src/main/java/com/example/logindb/Screen/Screen.kt:164-170 | a row's box adds or removes exactly its own id |
| LoginDbScreen.HomeScreen.OnDeleteSelected | LoginDB/app/src/main/java/com/example/logindb/Screen/Screen.kt:189-194 | one delete for each user to delete, in list order; afterwards nothing is checked and the search stays |
| LoginDbScreen.ClickOnWronglyTickedBox | LoginDB/app/src/main/java/com/example/logindb/Screen/Screen.kt:135-143 | on the input where the box is wrongly ticked (Ann and Bob checked, search "b"), clicking it to check Bea unchecks everybody instead |
| VmEx.CounterViewModel.constructor | VMEx/app/src/main/java/com/example/vmex/MainActivity.kt:90-92 | the counter starts at 0 |
| VmEx.CounterViewModel.IncrementCounter | VMEx/app/src/main/java/com/example/vmex/MainActivity.kt:93-97 | the counter goes up by one |
| VmEx.CounterViewModel.DecrementCounter | VMEx/app/src/main/java/com/example/vmex/MainActivity.kt:98-102 | the counter goes down by one |
| VmEx.MyViewModel.constructor | VMEx/app/src/main/java/com/example/vmex/MainActivity.kt:105-107 | the live-data counter starts holding 0 |
| VmEx.MyViewModel.Increase | VMEx/app/src/main/java/com/example/vmex/MainActivity.kt:108-110 | the counter holds one more than before, where an absent value counts as 0 |
| VmEx.MyViewModel.Decrease | VMEx/app/src/main/java/com/example/vmex/MainActivity.kt:111-113 | the counter holds one less than before, where an absent value counts as 0 |
| VmEx.IncreaseDecreaseRestores | VMEx/app/src/main/java/com/example/vmex/MainActivity.kt:108-113 | an increase and a decrease, in either order, restore the shown value |
| VmEx.IncrementDecrementRestores | VMEx/app/src/main/java/com/example/vmex/MainActivity.kt:93-102 | an increment and a decrement, in either order, restore the counter exactly |
| MyApplication.BottomItems | MyApplication/app/src/main/java/com/example/myapplication/MainActivity.kt:108-112 | the bar has three items, routed to "home", "counter/DefaultUser" and "profile/DefaultUser", in that order |
| MyApplication.RouteSelects | MyApplication/app/src/main/java/com/example/myapplication/MainActivity.kt:128-129 | one destination selects an item when its route is not null and starts with the item's route up to the first '/', or equals the item's route |
| MyApplication.IsSelected | MyApplication/app/src/main/java/com/example/myapplication/MainActivity.kt:125-130 | an item is highlighted when there is a current destination and some destination of its hierarchy selects the item |
| MyApplication.EqualityImpliedByPrefix | MyApplication/app/src/main/java/com/example/myapplication/MainActivity.kt:128-129 | the full-route equality test adds nothing to the prefix test |
| MyApplication.NullRouteNeverSelects | MyApplication/app/src/main/java/com/example/myapplication/MainActivity.kt:128-129 | a destination without a route selects no item |
| MyApplication.ItemPrefixes | MyApplication/app/src/main/java/com/example/myapplication/MainActivity.kt:109-111 | the items' prefixes are "home", "counter" and "profile" |
| MyApplication.SelectedUnderRootGraph | MyApplication/app/src/main/java/com/example/myapplication/MainActivity.kt:125-130 | for a destination under the root graph, an item is highlighted if and only if the destination's route starts with the item's prefix |
| MyApplication.ItemsSelectedBy | MyApplication/app/src/main/java/com/example/myapplication/MainActivity.kt:125-130 | which of the bar's three items a route highlights, as three if-and-only-if tests against the prefixes "home", "counter" and "profile" |
| MyApplication.HomeSelectsHomeItem | MyApplication/app/src/main/java/com/example/myapplication/MainActivity.kt:155 | the "home" destination highlights the bar's home item only |
| MyApplication.CounterSelectsCounterItem | MyApplication/app/src/main/java/com/example/myapplication/MainActivity.kt:159 | the "counter" destination highlights the bar's counter item only |
| MyApplication.ProfileSelectsProfileItem | MyApplication/app/src/main/java/com/example/myapplication/MainActivity.kt:164 | the "profile/{userName}" destination highlights the bar's profile item only |
| MyApplication.LoginSelectsNoItem | MyApplication/app/src/main/java/com/example/myapplication/MainActivity.kt:169 | the "login" destination highlights none of the bar's items |
| MyApplication.NoDestinationSelectsNothing | MyApplication/app/src/main/java/com/example/myapplication/MainActivity.kt:125-130 | with no current destination, no item is highlighted |
| MyApplication.CounterScreen.constructor | MyApplication/app/src/main/java/com/example/myapplication/MainActivity.kt:253 | the count starts at 0 |
| MyApplication.CounterScreen.OnIncrease | MyApplication/app/src/main/java/com/example/myapplication/MainActivity.kt:266-267 | the increase button adds one to the count |
| MyApplication.CounterScreen.OnDecrease | MyApplication/app/src/main/java/com/example/myapplication/MainActivity.kt:275-276 | the decrease button subtracts one from the count |

## Left out

- The Room database, its DAOs, type converters and singletons, the
  `TodoViewModel` and `UserViewModel` that wrap them, coroutines and Flow
  collection are not modelled. The screen handlers return the insert,
  update or deletes they would hand to those view-models.
- `viewModelScope.launch` in `CounterViewModel` runs its update
  asynchronously. Each update is modelled as applied at once, with no
  interleaving of launched updates.
- Navigation, the back stack and composition are not modelled, and neither
  are icons, colours, Toast messages or the `println` calls. The
  highlighted-item rule takes the current destination's hierarchy as a list
  of nullable routes.
- `System.currentTimeMillis()`, which gives new memos and to-dos their ids,
  becomes the `id` parameter of `AddTodo`. Nothing makes ids distinct, and
  the model does not claim they are: commands keyed by id act on every
  memo that carries the id.
- Live-data cells that start with a value and are only ever given non-null
  ones are modelled as plain values. Two cells keep their null case as an
  `Option`:
  - `MyViewModel`'s counter, for its `?: 0` branch;
  - Memo's selected memo, which starts unset and is set to null when a
    selection is cleared or a lookup finds nothing.
- Kotlin's `Int` and `Long` wrap around at 32 and 64 bits. The counters and
  ids here are unbounded integers.
- KotlinText.FoldCase: case-insensitive matching folds ASCII letters only. Kotlin compares the Unicode upper-case and lower-case mappings of each character, and those tables are not modelled.
- `isBlank` uses Java's whitespace and space-separator characters, written
  out as a fixed table of code points, not derived from the Unicode
  character database.
- The Room app's `CreateViewModel` and `TodoData` are the same as
  todolist1's. The `TodoList` module models both, and the Room screen uses
  only its own `Todo` entity.
- Ids come from the clock, so two memos or to-dos may share one. The model
  follows the code on what each command matches:
  - removal deletes the first item equal in every field, because Kotlin's
    `remove` compares data-class values structurally;
  - editing and toggling act on every item carrying the id, because they
    `map` over the whole list.
- LoginDbScreen.HomeScreen.OnSelectAllChange: the value the box reports is
  a parameter. `OnSelectAllClick` derives it as the opposite of what the box
  shows, which is how a Compose checkbox reports a click.

## Findings

| source | as written | input that shows it | evidently intended | confidence | as-written member | corrected member |
|---|---|---|---|---|---|---|
| LoginDB/app/src/main/java/com/example/logindb/Screen/Screen.kt:136 | the select-all box is ticked when the list shown is not empty and the number of checked ids equals the number of shown users | users Ann (id 1), Bob (id 2) and Bea (id 3); check Ann and Bob, then search "b": Bob and Bea are shown, two ids are checked, so the box shows ticked while Bea is unchecked (and Ann, hidden, is still checked) | the box is ticked when the list shown is not empty and every shown user's id is checked | medium, not executed | LoginDbScreen.SelectAllCheckedWithUncheckedUser | LoginDbScreen.SelectAllChecked |
