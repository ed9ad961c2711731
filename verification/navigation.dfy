/** The seven screens of the phone view, and the strings the source uses for
    them. */
module Navigation {
  import opened Wrappers

  datatype AppView =
    | DashboardView
    | SettingsMenuView
    | BeingManagementView
    | DailyWritingView
    | DailyAchievementView
    | EditRequestView
    | NextPracticeView

  /** The string literal the `AppView` union type uses for each view. */
  function ViewName(v: AppView): string {
    match v
    case DashboardView => "dashboard"
    case SettingsMenuView => "settings_menu"
    case BeingManagementView => "being_management"
    case DailyWritingView => "daily_writing"
    case DailyAchievementView => "daily_achievement"
    case EditRequestView => "edit_request"
    case NextPracticeView => "next_practice"
  }

  /** The view a string names, if it names one. */
  function ParseView(s: string): (r: Option<AppView>)
    ensures r.Some? ==> ViewName(r.value) == s
  {
    if s == "dashboard" then Some(DashboardView)
    else if s == "settings_menu" then Some(SettingsMenuView)
    else if s == "being_management" then Some(BeingManagementView)
    else if s == "daily_writing" then Some(DailyWritingView)
    else if s == "daily_achievement" then Some(DailyAchievementView)
    else if s == "edit_request" then Some(EditRequestView)
    else if s == "next_practice" then Some(NextPracticeView)
    else None
  }

  /** A string is a member of the `AppView` union. */
  predicate IsViewName(s: string) {
    ParseView(s).Some?
  }

  /** Every view's name parses back to that view, so distinct views have
      distinct names. */
  lemma ParseViewName(v: AppView)
    ensures ParseView(ViewName(v)) == Some(v)
  {
  }

  lemma ViewNameInjective(v: AppView, w: AppView)
    requires ViewName(v) == ViewName(w)
    ensures v == w
  {
    ParseViewName(v);
    ParseViewName(w);
  }
}
