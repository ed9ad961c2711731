/** The settings overlay: a close button and six menu entries, five of which
    navigate by view name and one of which logs out. */
module SettingsMenu {
  import opened Wrappers
  import opened Navigation

  datatype MenuItem = Writing | Achievement | Request | Direction | Timer | Logout

  /** The entries in the order the menu renders them. */
  const MenuItems: seq<MenuItem> := [Writing, Achievement, Request, Direction, Timer, Logout]

  /** The callback a click invokes, with its argument. */
  datatype MenuCallback = Navigate(view: string) | LogoutCalled | CloseCalled

  /** The `id` key of each entry. */
  function ItemId(item: MenuItem): string {
    match item
    case Writing => "writing"
    case Achievement => "achievement"
    case Request => "request"
    case Direction => "direction"
    case Timer => "timer"
    case Logout => "logout"
  }

  /** The `action` of each entry. */
  function ItemAction(item: MenuItem): MenuCallback {
    match item
    case Writing => Navigate("daily_writing")
    case Achievement => Navigate("daily_achievement")
    case Request => Navigate("edit_request")
    case Direction => Navigate("being_management")
    case Timer => Navigate("next_practice")
    case Logout => LogoutCalled
  }

  /** The close button's handler. */
  const CloseAction: MenuCallback := CloseCalled

  /** Every entry but logout navigates, and it navigates to a string that is a
      member of the `AppView` union, so the unchecked cast in the root
      component never yields an unknown view. Logout never navigates. */
  lemma MenuNavigatesToViews(item: MenuItem)
    ensures ItemAction(item).Navigate? <==> item != Logout
    ensures ItemAction(item).Navigate? ==> IsViewName(ItemAction(item).view)
    ensures item == Logout ==> ItemAction(item) == LogoutCalled
  {
  }

  /** The table of destinations, as views. */
  lemma MenuDestinations()
    ensures ParseView(ItemAction(Writing).view) == Some(DailyWritingView)
    ensures ParseView(ItemAction(Achievement).view) == Some(DailyAchievementView)
    ensures ParseView(ItemAction(Request).view) == Some(EditRequestView)
    ensures ParseView(ItemAction(Direction).view) == Some(BeingManagementView)
    ensures ParseView(ItemAction(Timer).view) == Some(NextPracticeView)
  {
  }

  /** Entry ids are distinct, so each renders under its own key. */
  lemma ItemIdsDistinct(a: MenuItem, b: MenuItem)
    requires ItemId(a) == ItemId(b)
    ensures a == b
  {
  }
}
