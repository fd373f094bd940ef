/**
 * The rules inside the user-manager app's screens: the case-insensitive name
 * search over the user list, the set of checked user ids with its select-all
 * box and bulk delete, and how the add and detail screens turn their text
 * fields into the `User` record handed to the database. The database is
 * outside the model: handlers return the inserts, updates and deletes they
 * issue.
 */
module LoginDbScreen {
  import opened Nullable
  import opened KotlinText
  import opened KotlinLists

  /** A stored user. A `uid` of 0 asks the database to generate one on insert. */
  datatype User = User(
    uid: int,
    name: string,
    email: string,
    phonenum: Option<string>,
    address: Option<string>,
    regDate: Option<string>,
    isDone: bool)

  // ---------------------------------------------------------------- search

  /** The search test of one user: its name contains the query, ignoring case. */
  predicate NameMatches(query: string, u: User) {
    ContainsIgnoreCase(u.name, query)
  }

  /** `filteredUserList`: everybody for a blank query, otherwise the users whose name matches. */
  function FilteredUsers(users: seq<User>, query: string): (r: seq<User>)
    ensures IsBlank(query) ==> r == users
    ensures |r| <= |users|
  {
    if IsBlank(query) then users else Filter(users, u => NameMatches(query, u))
  }

  /**
   * With a query that is not blank, a user is shown exactly when it is in the
   * list and its name matches, and as many times as it is in the list.
   */
  lemma FilteredUsersExact(users: seq<User>, query: string, u: User)
    requires !IsBlank(query)
    ensures u in FilteredUsers(users, query) <==> u in users && NameMatches(query, u)
    ensures multiset(FilteredUsers(users, query))[u] ==
      if NameMatches(query, u) then multiset(users)[u] else 0
  {
    FilterMultiplicity(users, u => NameMatches(query, u), u);
  }

  /** The shown users keep the order of the full list. */
  lemma FilteredUsersInOrder(users: seq<User>, query: string)
    ensures IsSubsequence(FilteredUsers(users, query), users)
  {
    if !IsBlank(query) {
      FilterIsSubsequence(users, u => NameMatches(query, u));
    } else {
      SubsequenceOfItself(users);
    }
  }

  /** Searching the search result again with the same query shows the same users. */
  lemma FilteredUsersIdempotent(users: seq<User>, query: string)
    ensures FilteredUsers(FilteredUsers(users, query), query) == FilteredUsers(users, query)
  {
    if !IsBlank(query) {
      FilterIdempotent(users, u => NameMatches(query, u));
    }
  }

  // ------------------------------------------------------------- selection

  /** `map { it.uid }.toSet()`: the ids of the given users, and no other. */
  function UidsOf(users: seq<User>): (ids: set<int>)
    ensures forall i :: 0 <= i < |users| ==> users[i].uid in ids
    ensures forall k :: k in ids ==> exists i :: 0 <= i < |users| && users[i].uid == k
  {
    if users == [] then {}
    else
      var tail := UidsOf(users[1..]);
      assert forall k :: k in tail ==> exists i :: 0 <= i < |users| && users[i].uid == k by {
        forall k | k in tail ensures exists i :: 0 <= i < |users| && users[i].uid == k {
          var i :| 0 <= i < |users[1..]| && users[1..][i].uid == k;
          assert users[i + 1].uid == k;
        }
      }
      {users[0].uid} + tail
  }

  /** `UserListValue.filter { it.uid in selectedUserIds }`: what the bulk delete removes. */
  function UsersToDelete(users: seq<User>, selected: set<int>): (r: seq<User>)
    ensures forall u :: u in r ==> u in users && u.uid in selected
  {
    Filter(users, (u: User) => u.uid in selected)
  }

  /**
   * The bulk delete takes every user of the full list (not only the shown
   * ones) whose id is checked, each as often as it occurs there, and no other.
   */
  lemma UsersToDeleteExact(users: seq<User>, selected: set<int>, u: User)
    ensures multiset(UsersToDelete(users, selected))[u] ==
      if u.uid in selected then multiset(users)[u] else 0
  {
    FilterMultiplicity(users, (u: User) => u.uid in selected, u);
  }

  /**
   * The select-all box as written: ticked when something is shown and the
   * number of checked ids equals the number of shown users.
   */
  predicate SelectAllCheckedAsWritten(shown: seq<User>, selected: set<int>) {
    |shown| > 0 && |selected| == |shown|
  }

  /**
   * Checking two users and then narrowing the search so that a third,
   * unchecked user shows up next to one of them ticks the select-all box as
   * written, although a shown user is not checked.
   */
  lemma SelectAllCheckedWithUncheckedUser()
    ensures
      var ann := User(1, "Ann", "ann@x", None, None, None, false);
      var bob := User(2, "Bob", "bob@x", None, None, None, false);
      var bea := User(3, "Bea", "bea@x", None, None, None, false);
      var shown := FilteredUsers([ann, bob, bea], "b");
      && shown == [bob, bea]
      && SelectAllCheckedAsWritten(shown, {1, 2})
      && bea in shown && bea.uid !in {1, 2}
      && !SelectAllChecked(shown, {1, 2})
  {
    var ann := User(1, "Ann", "ann@x", None, None, None, false);
    var bob := User(2, "Bob", "bob@x", None, None, None, false);
    var bea := User(3, "Bea", "bea@x", None, None, None, false);
    assert !IsBlank("b") by { assert !IsWhitespace('b'); }
    assert !NameMatches("b", ann) by {
      forall at: nat | at + 1 <= 3 ensures !RegionMatchesIgnoreCase("Ann", at, "b") {
        assert FoldCase("Ann"[at]) != FoldCase("b"[0]);
      }
    }
    assert NameMatches("b", bob) by { assert RegionMatchesIgnoreCase("Bob", 0, "b"); }
    assert NameMatches("b", bea) by { assert RegionMatchesIgnoreCase("Bea", 0, "b"); }
    var p := u => NameMatches("b", u);
    var users := [ann, bob, bea];
    assert users[1..] == [bob, bea] && [bob, bea][1..] == [bea] && [bea][1..] == [];
    calc {
      Filter(users, p);
      Filter([bob, bea], p);
      [bob] + Filter([bea], p);
      [bob] + ([bea] + Filter([], p));
      [bob, bea];
    }
    assert |{1, 2}| == 2;
  }

  /**
   * The select-all box as intended: ticked when something is shown and every
   * shown user is checked.
   */
  predicate SelectAllChecked(shown: seq<User>, selected: set<int>) {
    |shown| > 0 && forall i :: 0 <= i < |shown| ==> shown[i].uid in selected
  }

  /** No two users share an id, as the table's primary key guarantees. */
  predicate DistinctUids(users: seq<User>) {
    forall i, j :: 0 <= i < j < |users| ==> users[i].uid != users[j].uid
  }

  lemma {:induction false} UidsOfSize(users: seq<User>)
    requires DistinctUids(users)
    ensures |UidsOf(users)| == |users|
  {
    if users != [] {
      var rest := users[1..];
      assert DistinctUids(rest) by {
        forall i, j | 0 <= i < j < |rest| ensures rest[i].uid != rest[j].uid {
          assert rest[i] == users[i + 1] && rest[j] == users[j + 1];
        }
      }
      UidsOfSize(rest);
      assert users[0].uid !in UidsOf(rest) by {
        forall i | 0 <= i < |rest| ensures rest[i].uid != users[0].uid {
          assert rest[i] == users[i + 1];
        }
      }
    }
  }

  /**
   * When every checked id belongs to a shown user (no hidden user is
   * checked) and ids are distinct, the test as written agrees with the
   * intended one.
   */
  lemma AsWrittenAgreesWithoutHiddenIds(shown: seq<User>, selected: set<int>)
    requires DistinctUids(shown)
    requires selected <= UidsOf(shown)
    ensures SelectAllCheckedAsWritten(shown, selected) <==> SelectAllChecked(shown, selected)
  {
    UidsOfSize(shown);
    if SelectAllCheckedAsWritten(shown, selected) {
      SubsetOfSameSize(selected, UidsOf(shown));
    }
    if SelectAllChecked(shown, selected) {
      assert UidsOf(shown) <= selected;
      assert selected == UidsOf(shown);
    }
  }

  /** Ticking the select-all box shows it ticked, whatever the ids look like. */
  lemma SelectAllThenChecked(shown: seq<User>)
    requires |shown| > 0
    ensures SelectAllChecked(shown, UidsOf(shown))
  {
  }

  /** Unticking the select-all box, or having nothing checked, never shows it ticked. */
  lemma NothingSelectedUnchecked(shown: seq<User>)
    ensures !SelectAllChecked(shown, {})
  {
    if |shown| > 0 {
      assert shown[0].uid !in {};
    }
  }

  // ------------------------------------------------------ records to store

  /**
   * What may reach the user table: name and email not blank, and the
   * optional fields either null or holding text that is not blank.
   */
  predicate Storable(u: User) {
    && !IsBlank(u.name)
    && !IsBlank(u.email)
    && (u.phonenum.Some? ==> !IsBlank(u.phonenum.value))
    && (u.address.Some? ==> !IsBlank(u.address.value))
    && (u.regDate.Some? ==> !IsBlank(u.regDate.value))
  }

  /**
   * The add screen's save button: with name and email not blank, a new user
   * (id 0, blank phone and address as null, no registration date, not done)
   * is inserted; otherwise nothing is.
   */
  function NewUser(name: string, email: string, phone: string, address: string): (r: Option<User>)
    ensures r.Some? <==> !IsBlank(name) && !IsBlank(email)
    ensures r.Some? ==> Storable(r.value)
    ensures r.Some? ==>
      && r.value.uid == 0 && r.value.name == name && r.value.email == email
      && r.value.phonenum.OrElse("") == (if IsBlank(phone) then "" else phone)
      && r.value.address.OrElse("") == (if IsBlank(address) then "" else address)
      && r.value.regDate == None && !r.value.isDone
  {
    if !IsBlank(name) && !IsBlank(email) then
      Some(User(0, name, email, IfBlankNull(phone), IfBlankNull(address), None, false))
    else
      None
  }

  /** The detail screen's text fields and done flag. */
  datatype DetailForm = DetailForm(
    name: string,
    email: string,
    phone: string,
    address: string,
    regDate: string,
    isDone: bool)

  /** The fields as the detail screen fills them from a loaded user: null becomes "". */
  function LoadForm(u: User): (f: DetailForm)
    ensures f.name == u.name && f.email == u.email && f.isDone == u.isDone
    ensures f.phone == u.phonenum.OrElse("") && f.address == u.address.OrElse("")
    ensures f.regDate == u.regDate.OrElse("")
  {
    DetailForm(u.name, u.email, u.phonenum.OrElse(""), u.address.OrElse(""), u.regDate.OrElse(""), u.isDone)
  }

  /**
   * The detail screen's save button: only with a loaded user and a name and
   * email that are not blank, an update is issued that keeps the user's id
   * and takes every other field from the form, blank optional fields as
   * null; otherwise nothing is issued.
   */
  function EditedUser(loaded: Option<User>, form: DetailForm): (r: Option<User>)
    ensures r.Some? <==> loaded.Some? && !IsBlank(form.name) && !IsBlank(form.email)
    ensures r.Some? ==> Storable(r.value) && r.value.uid == loaded.value.uid
    ensures r.Some? ==> r.value.name == form.name && r.value.email == form.email && r.value.isDone == form.isDone
    ensures r.Some? ==> r.value.phonenum.OrElse("") == (if IsBlank(form.phone) then "" else form.phone)
    ensures r.Some? ==> r.value.address.OrElse("") == (if IsBlank(form.address) then "" else form.address)
    ensures r.Some? ==> r.value.regDate.OrElse("") == (if IsBlank(form.regDate) then "" else form.regDate)
  {
    match loaded
    case None => None
    case Some(u) =>
      if !IsBlank(form.name) && !IsBlank(form.email) then
        Some(u.(name := form.name, email := form.email,
                phonenum := IfBlankNull(form.phone), address := IfBlankNull(form.address),
                regDate := IfBlankNull(form.regDate), isDone := form.isDone))
      else
        None
  }

  /** Loading a storable user into the detail screen and saving at once issues the user unchanged. */
  lemma SaveUnchangedIsIdentity(u: User)
    requires Storable(u)
    ensures EditedUser(Some(u), LoadForm(u)) == Some(u)
  {
    OptionalFieldRoundTrip(u.phonenum);
    OptionalFieldRoundTrip(u.address);
    OptionalFieldRoundTrip(u.regDate);
  }

  /** An optional field that is null or not blank survives `?: ""` followed by `ifBlank { null }`. */
  lemma OptionalFieldRoundTrip(field: Option<string>)
    requires field.Some? ==> !IsBlank(field.value)
    ensures IfBlankNull(field.OrElse("")) == field
  {
  }

  /** A user created on the add screen, opened on the detail screen and saved unchanged, is issued unchanged. */
  lemma NewUserSurvivesEdit(name: string, email: string, phone: string, address: string)
    requires NewUser(name, email, phone, address).Some?
    ensures var u := NewUser(name, email, phone, address).value;
      EditedUser(Some(u), LoadForm(u)) == Some(u)
  {
    SaveUnchangedIsIdentity(NewUser(name, email, phone, address).value);
  }

  // ------------------------------------------------------------ the screen

  /** The home screen's search text and set of checked user ids. */
  class HomeScreen {
    var currentInputText: string
    var selectedUserIds: set<int>

    /** An empty search and nothing checked. */
    constructor ()
      ensures currentInputText == "" && selectedUserIds == {}
    {
      currentInputText := "";
      selectedUserIds := {};
    }

    /** Typing into the search field replaces its text; the checked ids stay. */
    method OnQueryChange(newText: string)
      modifies this
      ensures currentInputText == newText && selectedUserIds == old(selectedUserIds)
    {
      currentInputText := newText;
    }

    /** The clear icon empties the search; the checked ids stay. */
    method OnClearQuery()
      modifies this
      ensures currentInputText == "" && selectedUserIds == old(selectedUserIds)
    {
      currentInputText := "";
    }

    /**
     * Whether the select-all box shows ticked: the test as written, which
     * compares the number of checked ids with the number of shown users.
     */
    predicate SelectAllBoxChecked(userList: seq<User>)
      reads this
    {
      SelectAllCheckedAsWritten(FilteredUsers(userList, currentInputText), selectedUserIds)
    }

    /**
     * The select-all box's callback: ticking checks exactly the ids of the
     * shown users (dropping any hidden ones); unticking unchecks everybody.
     * After a tick over distinct shown users the box shows ticked.
     */
    method OnSelectAllChange(userList: seq<User>, isChecked: bool)
      modifies this
      ensures isChecked ==> selectedUserIds == UidsOf(FilteredUsers(userList, currentInputText))
      ensures !isChecked ==> selectedUserIds == {}
      ensures currentInputText == old(currentInputText)
      ensures (isChecked && |FilteredUsers(userList, currentInputText)| > 0
               && DistinctUids(FilteredUsers(userList, currentInputText))) ==> SelectAllBoxChecked(userList)
    {
      var filtered := FilteredUsers(userList, currentInputText);
      if isChecked {
        selectedUserIds := UidsOf(filtered);
        if |filtered| > 0 && DistinctUids(filtered) {
          SelectAllThenChecked(filtered);
          AsWrittenAgreesWithoutHiddenIds(filtered, selectedUserIds);
        }
      } else {
        selectedUserIds := {};
      }
    }

    /**
     * A click on the select-all box: the box reports the opposite of what it
     * shows, so a box shown ticked unchecks every id, hidden ones included,
     * and a box shown unticked checks exactly the shown users.
     */
    method OnSelectAllClick(userList: seq<User>)
      requires |FilteredUsers(userList, currentInputText)| > 0
      modifies this
      ensures old(SelectAllBoxChecked(userList)) ==> selectedUserIds == {}
      ensures !old(SelectAllBoxChecked(userList)) ==>
        selectedUserIds == UidsOf(FilteredUsers(userList, currentInputText))
      ensures currentInputText == old(currentInputText)
    {
      OnSelectAllChange(userList, !SelectAllBoxChecked(userList));
    }

    /** A row's box adds its user's id when ticked and removes it when unticked; no other id changes. */
    method OnItemCheckedChange(uid: int, isChecked: bool)
      modifies this
      ensures selectedUserIds == if isChecked then old(selectedUserIds) + {uid} else old(selectedUserIds) - {uid}
      ensures currentInputText == old(currentInputText)
    {
      if isChecked {
        selectedUserIds := selectedUserIds + {uid};
      } else {
        selectedUserIds := selectedUserIds - {uid};
      }
    }

    /**
     * The bulk-delete button: one delete per user of the full list whose id
     * is checked, in list order; then nothing is checked.
     */
    method OnDeleteSelected(userList: seq<User>) returns (deletes: seq<User>)
      modifies this
      ensures deletes == UsersToDelete(userList, old(selectedUserIds))
      ensures selectedUserIds == {}
      ensures currentInputText == old(currentInputText)
    {
      var usersToDelete := UsersToDelete(userList, selectedUserIds);
      deletes := [];
      for k := 0 to |usersToDelete|
        invariant deletes == usersToDelete[..k]
      {
        deletes := deletes + [usersToDelete[k]];
      }
      selectedUserIds := {};
    }
  }

  /**
   * On the input of `SelectAllCheckedWithUncheckedUser`, the user clicks the
   * select-all box to check the unchecked Bea: because the box shows ticked,
   * the click unchecks everybody instead, hidden Ann included.
   */
  method ClickOnWronglyTickedBox(screen: HomeScreen)
    requires screen.currentInputText == "b" && screen.selectedUserIds == {1, 2}
    modifies screen
    ensures screen.selectedUserIds == {}
  {
    var ann := User(1, "Ann", "ann@x", None, None, None, false);
    var bob := User(2, "Bob", "bob@x", None, None, None, false);
    var bea := User(3, "Bea", "bea@x", None, None, None, false);
    SelectAllCheckedWithUncheckedUser();
    assert screen.SelectAllBoxChecked([ann, bob, bea]);
    screen.OnSelectAllClick([ann, bob, bea]);
  }
}
