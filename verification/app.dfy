/** The root component: it owns the authentication flag, the current view and
    the application record, and turns the callbacks of the screens below it
    into state changes. */
module App {
  import opened Wrappers
  import opened Types
  import opened Navigation
  import SettingsMenu
  import SimplePage

  /** The root's state. `currentView` holds a string, as the React state
      does, because the settings menu's navigation reaches it through an
      unchecked cast. */
  datatype AppState = AppState(isAuthenticated: bool, currentView: string, appData: Option<AppData>)

  /** Logged out, on the dashboard, record not yet fetched. */
  const InitialState: AppState := AppState(false, ViewName(DashboardView), None)

  predicate Shows(st: AppState, v: AppView) {
    st.currentView == ViewName(v)
  }

  // ---------------------------------------------------------------------
  // Record updates

  /** `handleIdentityUpdate`: with a record, only `identities` is replaced;
      without one, nothing happens. */
  function HandleIdentityUpdate(st: AppState, ids: seq<string>): (r: AppState)
    ensures r.(appData := st.appData) == st
    ensures st.appData.None? ==> r == st
    ensures st.appData.Some? ==>
      && r.appData.Some?
      && r.appData.value.identities == ids
      && r.appData.value.(identities := st.appData.value.identities) == st.appData.value
  {
    match st.appData
    case Some(d) => st.(appData := Some(d.(identities := ids)))
    case None => st
  }

  /** `handleAdminUpdate`: the admin console's record replaces the whole
      record; the view and the login flag stay. */
  function HandleAdminUpdate(st: AppState, d: AppData): (r: AppState)
    ensures r.appData == Some(d)
    ensures r.(appData := st.appData) == st
  {
    st.(appData := Some(d))
  }

  /** The keys the single-field editors pass to `handleDataUpdate`: the
      string-valued top-level fields of the record, and `keyTaskTitle` for
      the key task's title. */
  datatype DataField = ProcessSummaryField | DailyWritingField | PersonalRequestField | NextPracticeTimeField | KeyTaskTitle

  /** The text a field key designates. */
  function FieldValue(d: AppData, f: DataField): string {
    match f
    case ProcessSummaryField => d.processSummary
    case DailyWritingField => d.dailyWriting
    case PersonalRequestField => d.personalRequest
    case NextPracticeTimeField => d.nextPracticeTime
    case KeyTaskTitle => d.keyTask.title
  }

  /** `a` and `b` agree on everything no field key designates, including the
      key task's completion flag. */
  predicate AgreeOutsideFields(a: AppData, b: AppData) {
    && a.keyTask.isCompleted == b.keyTask.isCompleted
    && a.(processSummary := b.processSummary, dailyWriting := b.dailyWriting,
          personalRequest := b.personalRequest, nextPracticeTime := b.nextPracticeTime,
          keyTask := b.keyTask) == b
  }

  /** `handleDataUpdate(field, value)`: without a record nothing happens, the
      view included. With one, the designated text becomes `value`, every
      other part of the record stays, and the view becomes the dashboard
      whatever it was. */
  function HandleDataUpdate(st: AppState, f: DataField, value: string): (r: AppState)
    ensures st.appData.None? ==> r == st
    ensures st.appData.Some? ==>
      && Shows(r, DashboardView)
      && r.isAuthenticated == st.isAuthenticated
      && r.appData.Some?
      && FieldValue(r.appData.value, f) == value
      && (forall g :: g != f ==> FieldValue(r.appData.value, g) == FieldValue(st.appData.value, g))
      && AgreeOutsideFields(r.appData.value, st.appData.value)
  {
    match st.appData
    case None => st
    case Some(d) =>
      var d' := match f
        case KeyTaskTitle => d.(keyTask := d.keyTask.(title := value))
        case ProcessSummaryField => d.(processSummary := value)
        case DailyWritingField => d.(dailyWriting := value)
        case PersonalRequestField => d.(personalRequest := value)
        case NextPracticeTimeField => d.(nextPracticeTime := value);
      AppState(st.isAuthenticated, ViewName(DashboardView), Some(d'))
  }

  /** A concrete case: saving "X" as the key task's title updates the title
      and lands on the dashboard from any view. */
  lemma KeyTaskTitleScenario(st: AppState)
    requires st.appData.Some?
    ensures HandleDataUpdate(st, KeyTaskTitle, "X").appData.value.keyTask.title == "X"
    ensures HandleDataUpdate(st, KeyTaskTitle, "X").appData.value.keyTask.isCompleted == st.appData.value.keyTask.isCompleted
    ensures Shows(HandleDataUpdate(st, KeyTaskTitle, "X"), DashboardView)
  {
  }

  // ---------------------------------------------------------------------
  // Session and navigation

  /** The login screen's `onLogin`. */
  function Login(st: AppState): (r: AppState)
    ensures r.isAuthenticated
    ensures r.(isAuthenticated := st.isAuthenticated) == st
  {
    st.(isAuthenticated := true)
  }

  /** The menu's logout: the flag drops; the view and the record are kept. */
  function Logout(st: AppState): (r: AppState)
    ensures !r.isAuthenticated
    ensures r.currentView == st.currentView && r.appData == st.appData
  {
    st.(isAuthenticated := false)
  }

  /** `handleSettingsNavigate(view)`: `view as AppView` stores the string as
      it is; only the view changes. */
  function HandleSettingsNavigate(st: AppState, view: string): (r: AppState)
    ensures r.currentView == view
    ensures r.(currentView := st.currentView) == st
  {
    st.(currentView := view)
  }

  /** `setCurrentView(v)` from a back or open button. */
  function GoTo(st: AppState, v: AppView): (r: AppState)
    ensures Shows(r, v)
    ensures r.(currentView := st.currentView) == st
  {
    st.(currentView := ViewName(v))
  }

  /** What the phone frame renders. */
  datatype Screen = LoginScreen | LoadingScreen | ViewScreen(view: AppView) | BlankScreen

  function ScreenOf(st: AppState): (s: Screen)
    ensures s.LoginScreen? <==> !st.isAuthenticated
    ensures s.ViewScreen? ==> st.appData.Some? && Shows(st, s.view)
    ensures s.BlankScreen? <==> st.isAuthenticated && st.appData.Some? && !IsViewName(st.currentView)
    ensures st.isAuthenticated && st.appData.None? ==> s == LoadingScreen
    ensures st.isAuthenticated && st.appData.Some? && ParseView(st.currentView).Some? ==>
      s == ViewScreen(ParseView(st.currentView).value)
  {
    if !st.isAuthenticated then LoginScreen
    else if st.appData.None? then LoadingScreen
    else match ParseView(st.currentView)
      case Some(v) => ViewScreen(v)
      case None => BlankScreen
  }

  /** The record field each single-field editor shows and saves. */
  function PageField(v: AppView): Option<DataField> {
    match v
    case DailyWritingView => Some(DailyWritingField)
    case DailyAchievementView => Some(KeyTaskTitle)
    case EditRequestView => Some(PersonalRequestField)
    case NextPracticeView => Some(NextPracticeTimeField)
    case _ => None
  }

  /** The callbacks the root wires up, plus the arrival of the fetched
      record. */
  datatype UiEvent =
    | DataLoaded(data: AppData)
    | LoginSubmitted
    | OpenSettings
    | ManageBeings
    | MenuItemClicked(item: SettingsMenu.MenuItem)
    | MenuClosed
    | IdentitiesEdited(ids: seq<string>)
    | BeingBack
    | PageSaved(value: string)
    | PageBack
    | AdminEdited(data: AppData)

  /** The props the root passes to the settings menu: `onNavigate`,
      `onLogout` and `onClose`. */
  function MenuDispatch(st: AppState, cb: SettingsMenu.MenuCallback): AppState {
    match cb
    case Navigate(view) => HandleSettingsNavigate(st, view)
    case LogoutCalled => Logout(st)
    case CloseCalled => GoTo(st, DashboardView)
  }

  /** The root's response to one callback. Only the login screen sets the
      login flag and only the menu's logout entry clears it; only the fetch,
      the being editor, the single-field editors and the admin console touch
      the record, and none of them drops a loaded one. */
  function Step(st: AppState, e: UiEvent): (r: AppState)
    ensures r.isAuthenticated != st.isAuthenticated ==>
      || (e.LoginSubmitted? && r.isAuthenticated)
      || (e == MenuItemClicked(SettingsMenu.Logout) && !r.isAuthenticated)
    ensures r.appData != st.appData ==> e.DataLoaded? || e.IdentitiesEdited? || e.PageSaved? || e.AdminEdited?
    ensures st.appData.Some? ==> r.appData.Some?
    ensures e.DataLoaded? ==> r == st.(appData := Some(e.data))
  {
    match e
    case DataLoaded(d) => st.(appData := Some(d))
    case LoginSubmitted => Login(st)
    case OpenSettings => GoTo(st, SettingsMenuView)
    case ManageBeings => GoTo(st, BeingManagementView)
    case MenuItemClicked(item) => MenuDispatch(st, SettingsMenu.ItemAction(item))
    case MenuClosed => MenuDispatch(st, SettingsMenu.CloseAction)
    case IdentitiesEdited(ids) => HandleIdentityUpdate(st, ids)
    case BeingBack => GoTo(st, DashboardView)
    case PageSaved(value) =>
      (match ParseView(st.currentView)
       case Some(v) =>
         (match PageField(v)
          case Some(f) => HandleDataUpdate(st, f, value)
          case None => st)
       case None => st)
    case PageBack => GoTo(st, SettingsMenuView)
    case AdminEdited(d) => HandleAdminUpdate(st, d)
  }

  /** Logged in, with the record loaded, and showing view `v`. */
  predicate OnView(st: AppState, v: AppView) {
    st.isAuthenticated && st.appData.Some? && Shows(st, v)
  }

  /** The events the current screen can emit. The fetch may complete at any
      time; the admin console is only rendered next to a loaded record; every
      other callback belongs to a view, so it needs a login and the record. */
  function Offered(st: AppState, e: UiEvent): (b: bool)
    ensures e.DataLoaded? ==> b
    ensures e.LoginSubmitted? ==> (b <==> !st.isAuthenticated)
    ensures e.OpenSettings? || e.ManageBeings? ==> (b <==> OnView(st, DashboardView))
    ensures e.MenuItemClicked? || e.MenuClosed? ==> (b <==> OnView(st, SettingsMenuView))
    ensures e.IdentitiesEdited? || e.BeingBack? ==> (b <==> OnView(st, BeingManagementView))
    ensures e.PageSaved? || e.PageBack? ==> (b <==> exists v :: OnView(st, v) && PageField(v).Some?)
    ensures e.AdminEdited? ==> (b <==> st.appData.Some?)
  {
    assert forall v :: ParseView(ViewName(v)) == Some(v) by {
      forall v: AppView ensures ParseView(ViewName(v)) == Some(v) {
        ParseViewName(v);
      }
    }
    var s := ScreenOf(st);
    match e
    case DataLoaded(_) => true
    case LoginSubmitted => s.LoginScreen?
    case OpenSettings => s == ViewScreen(DashboardView)
    case ManageBeings => s == ViewScreen(DashboardView)
    case MenuItemClicked(_) => s == ViewScreen(SettingsMenuView)
    case MenuClosed => s == ViewScreen(SettingsMenuView)
    case IdentitiesEdited(_) => s == ViewScreen(BeingManagementView)
    case BeingBack => s == ViewScreen(BeingManagementView)
    case PageSaved(_) => s.ViewScreen? && PageField(s.view).Some?
    case PageBack => s.ViewScreen? && PageField(s.view).Some?
    case AdminEdited(_) => st.appData.Some?
  }

  /** Every callback keeps the current view a member of the `AppView` union:
      the only string-typed navigation comes from the settings menu, whose
      entries all name views. */
  lemma {:induction false} StepKeepsViewValid(st: AppState, e: UiEvent)
    requires IsViewName(st.currentView)
    ensures IsViewName(Step(st, e).currentView)
  {
    match e {
      case MenuItemClicked(item) =>
        SettingsMenu.MenuNavigatesToViews(item);
      case _ =>
        ParseViewName(DashboardView);
        ParseViewName(SettingsMenuView);
        ParseViewName(BeingManagementView);
    }
  }

  /** So every state reachable from the initial one shows a view, never the
      blank screen. */
  lemma {:induction false} ReachableNeverBlank(events: seq<UiEvent>)
    ensures IsViewName(Run(InitialState, events).currentView)
    ensures !ScreenOf(Run(InitialState, events)).BlankScreen?
  {
    ParseViewName(DashboardView);
    RunKeepsViewValid(InitialState, events);
  }

  /** The state after a sequence of callbacks. */
  function Run(st: AppState, events: seq<UiEvent>): AppState
    decreases |events|
  {
    if |events| == 0 then st else Run(Step(st, events[0]), events[1..])
  }

  /** Once fetched, the record stays loaded whatever the user does. */
  lemma {:induction false} RunKeepsRecord(st: AppState, events: seq<UiEvent>)
    requires st.appData.Some?
    ensures Run(st, events).appData.Some?
    decreases |events|
  {
    if |events| > 0 {
      RunKeepsRecord(Step(st, events[0]), events[1..]);
    }
  }

  lemma {:induction false} RunKeepsViewValid(st: AppState, events: seq<UiEvent>)
    requires IsViewName(st.currentView)
    ensures IsViewName(Run(st, events).currentView)
    decreases |events|
  {
    if |events| > 0 {
      StepKeepsViewValid(st, events[0]);
      RunKeepsViewValid(Step(st, events[0]), events[1..]);
    }
  }

  /** The cast is unchecked: a string outside the union, were one passed,
      would leave the phone frame blank. */
  lemma UncheckedCastBlanksScreen(st: AppState)
    requires st.isAuthenticated && st.appData.Some?
    ensures ScreenOf(HandleSettingsNavigate(st, "settings")) == BlankScreen
  {
  }

  /** The navigation table, for the events each screen offers. */
  lemma Transitions(st: AppState, e: UiEvent)
    requires Offered(st, e)
    ensures e.OpenSettings? ==> Shows(Step(st, e), SettingsMenuView)
    ensures e.ManageBeings? ==> Shows(Step(st, e), BeingManagementView)
    ensures e.MenuClosed? ==> Shows(Step(st, e), DashboardView)
    ensures e.BeingBack? ==> Shows(Step(st, e), DashboardView)
    ensures e.PageBack? ==> Shows(Step(st, e), SettingsMenuView)
    ensures e.PageSaved? ==> Shows(Step(st, e), DashboardView)
    ensures e.MenuItemClicked? && e.item != SettingsMenu.Logout ==>
      Step(st, e).currentView == SettingsMenu.ItemAction(e.item).view
    ensures e.MenuItemClicked? && e.item == SettingsMenu.Logout ==>
      Step(st, e) == Logout(st)
  {
    if e.PageSaved? {
      var v := ScreenOf(st).view;
      ParseViewName(v);
    }
  }

  // ---------------------------------------------------------------------
  // Single-field editors

  /** The root's response to a callback of the open editor. */
  function Deliver(st: AppState, cb: SimplePage.PageCallback): AppState {
    match cb
    case NoCallback => st
    case OnSave(v) => Step(st, PageSaved(v))
    case OnBack => Step(st, PageBack)
  }

  /** An editor opened on view `v` with the record's current value, edited
      any number of times and left with back: the record is untouched and
      the menu is shown again. */
  lemma {:induction false} BackDiscardsDraft(st: AppState, v: AppView, kind: SimplePage.InputKind, edits: seq<string>)
    requires st.appData.Some? && Shows(st, v) && PageField(v).Some?
    ensures var page := SimplePage.RunEdits(SimplePage.Open(kind, FieldValue(st.appData.value, PageField(v).value)), edits);
      var r := Deliver(st, SimplePage.Step(page, SimplePage.BackClicked).1);
      r.appData == st.appData && Shows(r, SettingsMenuView)
  {
  }

  /** The same editor left with save: the field holds the last edit (or its
      old value when nothing was edited) and the dashboard is shown. */
  lemma {:induction false} SaveCommitsDraft(st: AppState, v: AppView, kind: SimplePage.InputKind, edits: seq<string>)
    requires st.appData.Some? && Shows(st, v) && PageField(v).Some?
    ensures var f := PageField(v).value;
      var page := SimplePage.RunEdits(SimplePage.Open(kind, FieldValue(st.appData.value, f)), edits);
      var r := Deliver(st, SimplePage.Step(page, SimplePage.SaveClicked).1);
      && r.appData.Some?
      && FieldValue(r.appData.value, f) == (if |edits| == 0 then FieldValue(st.appData.value, f) else edits[|edits| - 1])
      && Shows(r, DashboardView)
  {
    ParseViewName(v);
  }
}
