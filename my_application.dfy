/**
 * The counter/profile demo app: which bottom-navigation item is highlighted
 * for the current destination, and the counter screen's count. Icons are
 * left out of the items.
 */
module MyApplication {
  import opened Nullable
  import opened KotlinText

  /** A bottom-bar item: the route it navigates to and its label text. */
  datatype ScreenInfo = ScreenInfo(route: string, title: string)

  /** The bar's items, in display order. */
  function BottomItems(): (items: seq<ScreenInfo>)
    ensures |items| == 3
    ensures items[0].route == "home" && items[1].route == "counter/DefaultUser"
    ensures items[2].route == "profile/DefaultUser"
  {
    [ ScreenInfo("home", "홈"),
      ScreenInfo("counter/DefaultUser", "카운터"),
      ScreenInfo("profile/DefaultUser", "프로필") ]
  }

  /**
   * The test applied to one destination of the current hierarchy: its route
   * is not null and either starts with the part of the item's route before
   * the first '/' or equals the item's route.
   */
  predicate RouteSelects(route: Option<string>, itemRoute: string) {
    route.Some? &&
    (StartsWith(route.value, SubstringBefore(itemRoute, '/')) || route.value == itemRoute)
  }

  /**
   * `currentDestination?.hierarchy?.any { … } == true`: no current
   * destination selects nothing; otherwise some destination of its hierarchy
   * (itself and its parent graphs) must pass the test.
   */
  predicate IsSelected(hierarchy: Option<seq<Option<string>>>, itemRoute: string) {
    hierarchy.Some? && exists i :: 0 <= i < |hierarchy.value| && RouteSelects(hierarchy.value[i], itemRoute)
  }

  /** The equality test adds nothing: a route equal to the item's route already starts with its prefix. */
  lemma {:induction false} EqualityImpliedByPrefix(route: Option<string>, itemRoute: string)
    ensures RouteSelects(route, itemRoute) <==>
      route.Some? && StartsWith(route.value, SubstringBefore(itemRoute, '/'))
  {
  }

  /** A destination without a route never selects an item. */
  lemma NullRouteNeverSelects(itemRoute: string)
    ensures !RouteSelects(None, itemRoute)
  {
  }

  /**
   * The prefix of each item's route: a route without '/' is its own prefix,
   * so "home" selects every route starting with "home", while the counter
   * item selects the route "counter".
   */
  lemma ItemPrefixes()
    ensures SubstringBefore("home", '/') == "home"
    ensures SubstringBefore("counter/DefaultUser", '/') == "counter"
    ensures SubstringBefore("profile/DefaultUser", '/') == "profile"
  {
    CounterItemPrefix();
    ProfileItemPrefix();
  }

  lemma CounterItemPrefix()
    ensures SubstringBefore("counter/DefaultUser", '/') == "counter"
  {
    var s := "counter/DefaultUser";
    assert s[..7] == "counter";
    SubstringBeforeAt(s, '/', 7);
  }

  lemma ProfileItemPrefix()
    ensures SubstringBefore("profile/DefaultUser", '/') == "profile"
  {
    var s := "profile/DefaultUser";
    assert s[..7] == "profile";
    SubstringBeforeAt(s, '/', 7);
  }

  /**
   * For a destination directly under the root graph (whose route is null),
   * an item is highlighted exactly when the destination's route starts with
   * the item's prefix.
   */
  lemma {:induction false} SelectedUnderRootGraph(route: string, itemRoute: string)
    ensures IsSelected(Some([Some(route), None]), itemRoute) <==>
      StartsWith(route, SubstringBefore(itemRoute, '/'))
  {
    var h: seq<Option<string>> := [Some(route), None];
    EqualityImpliedByPrefix(h[0], itemRoute);
    if IsSelected(Some(h), itemRoute) {
      var i :| 0 <= i < |h| && RouteSelects(h[i], itemRoute);
      assert i == 0;
    }
    if StartsWith(route, SubstringBefore(itemRoute, '/')) {
      assert RouteSelects(h[0], itemRoute);
    }
  }

  lemma ProfileRouteHasProfilePrefix()
    ensures StartsWith("profile/{userName}", "profile")
  {
    assert "profile/{userName}"[..7] == "profile";
  }

  /** Which of the bar's items a destination directly under the root graph highlights, by the three prefixes. */
  lemma ItemsSelectedBy(route: string)
    ensures IsSelected(Some([Some(route), None]), BottomItems()[0].route) <==> StartsWith(route, "home")
    ensures IsSelected(Some([Some(route), None]), BottomItems()[1].route) <==> StartsWith(route, "counter")
    ensures IsSelected(Some([Some(route), None]), BottomItems()[2].route) <==> StartsWith(route, "profile")
  {
    ItemPrefixes();
    SelectedUnderRootGraph(route, "home");
    SelectedUnderRootGraph(route, "counter/DefaultUser");
    SelectedUnderRootGraph(route, "profile/DefaultUser");
  }

  /** The home destination highlights the bar's home item only. */
  lemma HomeSelectsHomeItem()
    ensures var h := Some([Some("home"), None]);
      var items := BottomItems();
      IsSelected(h, items[0].route) && !IsSelected(h, items[1].route) && !IsSelected(h, items[2].route)
  {
    ItemsSelectedBy("home");
    assert "home"[..4] == "home";
    FirstCharDiffers("home", "counter");
    FirstCharDiffers("home", "profile");
  }

  /** The counter destination, "counter", highlights the counter item only. */
  lemma CounterSelectsCounterItem()
    ensures var h := Some([Some("counter"), None]);
      var items := BottomItems();
      !IsSelected(h, items[0].route) && IsSelected(h, items[1].route) && !IsSelected(h, items[2].route)
  {
    ItemsSelectedBy("counter");
    FirstCharDiffers("counter", "home");
    assert "counter"[..7] == "counter";
    FirstCharDiffers("counter", "profile");
  }

  /** The profile destination, "profile/{userName}", highlights the profile item only. */
  lemma ProfileSelectsProfileItem()
    ensures var h := Some([Some("profile/{userName}"), None]);
      var items := BottomItems();
      !IsSelected(h, items[0].route) && !IsSelected(h, items[1].route) && IsSelected(h, items[2].route)
  {
    ItemsSelectedBy("profile/{userName}");
    FirstCharDiffers("profile/{userName}", "home");
    FirstCharDiffers("profile/{userName}", "counter");
    ProfileRouteHasProfilePrefix();
  }

  /** The login destination highlights no item. */
  lemma LoginSelectsNoItem()
    ensures var h := Some([Some("login"), None]);
      var items := BottomItems();
      !IsSelected(h, items[0].route) && !IsSelected(h, items[1].route) && !IsSelected(h, items[2].route)
  {
    ItemsSelectedBy("login");
    FirstCharDiffers("login", "home");
    FirstCharDiffers("login", "counter");
    FirstCharDiffers("login", "profile");
  }

  /** No current destination highlights nothing. */
  lemma NoDestinationSelectsNothing(itemRoute: string)
    ensures !IsSelected(None, itemRoute)
  {
  }

  /** The counter screen's count, a state variable that starts at 0. */
  class CounterScreen {
    var count: int

    constructor ()
      ensures count == 0
    {
      count := 0;
    }

    /** The increase button. */
    method OnIncrease()
      modifies this
      ensures count == old(count) + 1
    {
      count := count + 1;
    }

    /** The decrease button. */
    method OnDecrease()
      modifies this
      ensures count == old(count) - 1
    {
      count := count - 1;
    }
  }
}
