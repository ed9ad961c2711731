# BeingCoach core, modelled in Dafny

BeingCoach is a single-page coaching app. A root component owns three things:
- a login flag;
- the current screen, one of seven named views;
- one application record (`AppData`): identities, action areas, challenges, recovery strategies, a key achievement, a key task, free texts and pools of selectable words.

Screens below the root never change the record themselves. Each one builds a new record, or a new list, and hands it back through a callback. This project models that logic as pure functions:

- **list edits**:
  - identity add and delete by index (`BeingManagement`);
  - identity toggle, duplicate-rejecting custom add, challenge and recovery-strategy add and remove-by-id, and the pool search (`DesktopAdmin`);
- **record point-updates**: the root's `handleDataUpdate`, `handleIdentityUpdate` and `handleAdminUpdate`, and the admin console's key-achievement, key-task and summary editors (`App`, `DesktopAdmin`);
- **navigation**: the seven-view state machine with the login flag and the settings-menu table (`Navigation`, `SettingsMenu`, `App`);
- **derived state**:
  - the dashboard's selected-identity resync, checklist ticks, slider values and single expanded card (`Dashboard`);
  - the single-field editor's draft-then-save (`SimplePage`);
- **the mock provider**: it maps the raw action areas, sorts them by `order`, and builds the record with index-derived ids (`MockService`).

Supporting modules:
- `Types`: the record types of `types.ts`.
- `Wrappers`: an `Option`.
- `Seqs`: filter, subsequence and `splice(start, 1)`, the last following section 23.1.3.31 of ECMA-262.
- `JsText`: the ECMAScript string operations the handlers use. These are `String.prototype.trim` over the WhiteSpace and LineTerminator code points, `includes`, string truthiness, and `Number.prototype.toString` for natural numbers below 10^21, which covers every index and clock reading.

Modelling choices:
- Ids built from `Date.now().toString()` are a parameter of the add functions.
- The dashboard statistics are a parameter of `GetAppData`, because they are built from the clock and a random source.
- `currentView` is kept as a string, as the React state is. That lets the model show the unchecked cast `view as AppView`: a string outside the union would render nothing. `App.ReachableNeverBlank` proves that no sequence of callbacks produces such a string.

Behaviour of the code a reader might not expect, which the model keeps as written:

- Toggling an identity twice restores the list only when the identity was absent. A present identity comes back at the end of the list (`DesktopAdmin.TogglePresentTwiceReorders`).
- `handleDelete` uses `splice`. An index at or past the end changes nothing, but a negative index counts from the end. The screen only ever passes rendered indexes.
- `addChallenge` and `addRecovery` test the trimmed text but store the text untrimmed.
- `getActionAreas` and `getAppData` read the same seed table with the same map and sort, so their area lists are equal (`MockService.GetAppData`). They cannot diverge.
- With no identities, the dashboard's resync keeps a stale non-empty selection rather than clearing it.

## Model

| member | source | states |
|---|---|---|
| `Seqs.SpliceOne` | components/BeingManagement.tsx:30-31 | `splice(start, 1)` on a copy. An in-range index removes exactly that element, keeping prefix and suffix. An index at or past the end, or any index on an empty list, leaves the list. A negative index counts from the end. An index below `-length` removes the first element. |
| `JsText.Trim` | components/BeingManagement.tsx:23-24 | `trim()` removes only the whitespace around the text: the result is the input with a whitespace-only prefix and a whitespace-only suffix cut off. The result is empty exactly when the input is all whitespace; otherwise it neither starts nor ends with whitespace. |
| `JsText.Includes` | components/DesktopAdmin.tsx:435 | `w.includes(q)` is true exactly when `q` occurs in `w` at some position. |
| `JsText.IncludesEmpty` | components/DesktopAdmin.tsx:435 | Every string includes the empty string. |
| `JsText.NatToString` | services/mockService.ts:164-165 | `i.toString()` is a non-empty string of decimal digits, with no leading zero: 0 alone is `"0"`. |
| `JsText.ParseNatToString` | services/mockService.ts:164-165 | Reading the decimal digits of `i.toString()` gives back `i`. |
| `JsText.NatToStringInjective` | services/mockService.ts:164-165 | Distinct indexes give distinct id strings. |
| `BeingManagement.HandleAdd` | components/BeingManagement.tsx:22-27 | The callback is skipped exactly when the draft trims to empty, and then the draft is kept. Otherwise the old list plus the trimmed draft is emitted and the draft cleared. |
| `BeingManagement.AddGuardMatchesButton` | components/BeingManagement.tsx:62 | The add button is disabled exactly when a click would not call the callback. |
| `BeingManagement.AddKeepsDuplicates` | components/BeingManagement.tsx:24 | A trimmed draft already in the list is appended again. Its count grows by one and the list then has a duplicate. |
| `BeingManagement.HandleDelete` | components/BeingManagement.tsx:29-33 | An in-range index drops exactly that element: one shorter, same prefix, same suffix. An index at or past the end emits the list unchanged. A negative index counts from the end, and one below `-length` drops the first element. |
| `BeingManagement.DeleteFromRenderedIndex` | components/BeingManagement.tsx:73-88 | A rendered index yields a subsequence of the old list that is missing exactly one copy of the deleted identity. |
| `BeingManagement.DeleteSecondSeedIdentity` | components/BeingManagement.tsx:29-33 | Deleting index 1 of the four seed identities leaves the other three in order. |
| `DesktopAdmin.ToggleIdentity` | components/DesktopAdmin.tsx:51-59 | Only `identities` changes. An absent identity is appended at the end with the prefix kept. A present one vanishes entirely, the rest stay in order, and every other identity keeps its count. |
| `DesktopAdmin.ToggleAbsentTwice` | components/DesktopAdmin.tsx:51-59 | Toggling an absent identity twice restores the record. |
| `DesktopAdmin.TogglePresentTwiceReorders` | components/DesktopAdmin.tsx:51-59 | Toggling a present identity twice moves it to the end: `["a","b"]` becomes `["b","a"]`. |
| `DesktopAdmin.ChipDeleteRemovesAllCopies` | components/DesktopAdmin.tsx:402-409 | Deleting a selected chip removes every copy of its label. |
| `DesktopAdmin.AddCustomIdentity` | components/DesktopAdmin.tsx:61-66 | Nothing happens exactly when the trimmed draft is empty or already selected. Otherwise only `identities` changes, gaining the trimmed draft at the end, and the draft is cleared. |
| `DesktopAdmin.AddCustomKeepsDistinct` | components/DesktopAdmin.tsx:62-63 | If the identities have no duplicates, the custom add keeps it that way. |
| `DesktopAdmin.PoolSearch` | components/DesktopAdmin.tsx:435 | The matching pool entries, in pool order. Each word occurs as often as in the pool if it contains the query, and not at all otherwise. An empty query lists the whole pool. |
| `DesktopAdmin.AppendEntry` | components/DesktopAdmin.tsx:69-74 | A text that trims to empty adds nothing. Any other text adds exactly one entry at the end, holding the caller's id and the untrimmed text. |
| `DesktopAdmin.AddChallenge` | components/DesktopAdmin.tsx:69-74 | `onUpdate` is skipped exactly for blank text. When called, only `challenges` changes, by that one appended entry, and the draft is reset. |
| `DesktopAdmin.AddRecovery` | components/DesktopAdmin.tsx:81-86 | The same for `recoveryStrategies`. |
| `DesktopAdmin.AddChallengeScenarios` | components/DesktopAdmin.tsx:69-71 | `"  "` adds nothing. `"לחץ"` adds one entry with that text and a non-empty clock-derived id. |
| `DesktopAdmin.RemoveById` | components/DesktopAdmin.tsx:76-78 | No entry with the id remains, and entries sharing an id go together. Every other entry keeps its count, the rest stay in order, and an unknown id changes nothing. |
| `DesktopAdmin.RemoveChallenge` | components/DesktopAdmin.tsx:76-78 | Only `challenges` changes, and it changes by removal by id. |
| `DesktopAdmin.RemoveRecovery` | components/DesktopAdmin.tsx:88-90 | Only `recoveryStrategies` changes, and it changes by removal by id. |
| `DesktopAdmin.RemoveUndoesAppend` | components/DesktopAdmin.tsx:69-78 | Adding an entry under a fresh id and then removing that id restores the list. |
| `DesktopAdmin.UpdateKeyAchievement` | components/DesktopAdmin.tsx:36-41 | The named sub-field takes the value. Its two siblings and every other record field are unchanged. |
| `DesktopAdmin.UpdateKeyTask` | components/DesktopAdmin.tsx:43-48 | The task title takes the value. `isCompleted` and every other record field are unchanged. |
| `DesktopAdmin.UpdateSummary` | components/DesktopAdmin.tsx:583 | Only `processSummary` changes. |
| `Navigation.ParseView` | App.tsx:16-23 | A string parses to a view only if it is that view's literal. |
| `Navigation.ParseViewName` | App.tsx:16-23 | Every view's literal parses back to that view. |
| `Navigation.ViewNameInjective` | App.tsx:16-23 | Distinct views have distinct literals. |
| `SettingsMenu.MenuNavigatesToViews` | components/SettingsMenu.tsx:31-38 | Every entry but logout navigates, always to a member of the `AppView` union. Logout calls `onLogout` and never navigates. |
| `SettingsMenu.MenuDestinations` | components/SettingsMenu.tsx:32-36 | writing → daily writing, achievement → daily achievement, request → edit request, direction → being management, timer → next practice. |
| `SettingsMenu.ItemIdsDistinct` | components/SettingsMenu.tsx:31-38 | Entry ids are pairwise distinct. |
| `SimplePage.Open` | components/SimplePage.tsx:26 | The draft starts as the `value` prop. |
| `SimplePage.Step` | components/SimplePage.tsx:26-71 | An edit in any input kind changes only the draft and calls nothing. Save calls `onSave` with the draft unchanged, and nothing else does. Back calls `onBack` and never `onSave`. |
| `SimplePage.RunEdits` | components/SimplePage.tsx:45-75 | After a run of edits the draft is the last edit, or the opening value when there were none. Kind and prop are unchanged. |
| `SimplePage.EditsCallNothing` | components/SimplePage.tsx:45-75 | No edit invokes a callback. |
| `SimplePage.SaveAfterEdits` | components/SimplePage.tsx:28-30 | Save after a run of edits hands the last edit to `onSave`, or the opening value when there were none. |
| `Dashboard.InitialSelection` | components/Dashboard.tsx:21 | The first identity, or `""` for an empty list. |
| `Dashboard.Resync` | components/Dashboard.tsx:33-37 | With identities present, the selection ends up a member of them: a valid non-empty selection is kept, and an empty or unknown one becomes the first identity. With none, a stale selection is kept and an empty one stays empty. |
| `Dashboard.InitialSelectionInSync` | components/Dashboard.tsx:21-37 | The initial selection is left alone by the resync effect. |
| `Dashboard.ResyncIdempotent` | components/Dashboard.tsx:33-37 | A second resync changes nothing. |
| `Dashboard.ResyncKeepsStaleWhenEmpty` | components/Dashboard.tsx:34 | With no identities, a non-empty selection survives. |
| `Dashboard.ToggleItem` | components/Dashboard.tsx:43-45 | The key's tick flips, with an unset key read as unticked. No other key is added, removed or changed. |
| `Dashboard.ToggleItemTwice` | components/Dashboard.tsx:43-45 | Two toggles of one key restore every key's tick. |
| `Dashboard.SetSlider` | components/Dashboard.tsx:39-41 | The area reads the new value, and every other area reads what it read before. An unset area reads 0. |
| `Dashboard.ClickCard` | components/Dashboard.tsx:133 | The clicked card is expanded afterwards exactly when it was not before, and no other card is expanded. |
| `Dashboard.ExpandedIsLastClicked` | components/Dashboard.tsx:133 | After any non-empty run of clicks, either no card is expanded or only the card clicked last is. |
| `Dashboard.ClickTwice` | components/Dashboard.tsx:133 | Two clicks on one card restore the state when nothing or that card was open; they close everything when another card was open. |
| `App.HandleIdentityUpdate` | App.tsx:37-39 | Without a record nothing changes. With one, only `identities` is replaced. |
| `App.HandleAdminUpdate` | App.tsx:41-43 | The record is replaced wholesale; the login flag and view stay. |
| `App.HandleDataUpdate` | App.tsx:51-60 | Without a record nothing changes, the view included. With one, the keyed text takes the value and the other keyed texts stay. Everything else in the record, including `keyTask.isCompleted`, stays. The view becomes the dashboard. |
| `App.KeyTaskTitleScenario` | App.tsx:54-55 | Saving `"X"` as the key task title sets it, keeps `isCompleted` and shows the dashboard from any view. |
| `App.Login` | App.tsx:122 | The flag becomes true; nothing else changes. |
| `App.Logout` | App.tsx:141 | The flag becomes false; view and record are untouched. |
| `App.HandleSettingsNavigate` | App.tsx:45-48 | The string is stored as the view, unchecked; nothing else changes. |
| `App.GoTo` | App.tsx:139 | The button's view is shown; nothing else changes. |
| `App.ScreenOf` | App.tsx:113-209 | The login screen shows exactly when logged out. A view screen needs a loaded record and the matching view string. A blank frame happens exactly when logged in, with the record, on a string outside the union. Logged in without the record shows the loading screen; logged in with the record and a valid view string shows that view. |
| `App.StepKeepsViewValid` | App.tsx:45-48 | Every callback keeps the view a member of the `AppView` union. |
| `App.Step` | App.tsx:31-205 | The login flag is set only by the login screen and cleared only by the menu's logout entry. Only the fetch, the being editor, the single-field editors and the admin console change the record; none drops a loaded one. The fetch replaces just the record. |
| `App.Offered` | App.tsx:113-209 | The fetch may land at any time, and more than once; the program fetches once on mount, so a later arrival is an over-approximation. Login is offered only while logged out. The admin console needs a loaded record. Each screen's callbacks need a login, the record and that screen's view; the editors' callbacks need a view with an editable field. |
| `App.RunKeepsRecord` | App.tsx:31-59 | Once fetched, the record stays loaded through any sequence of callbacks. |
| `App.RunKeepsViewValid` | App.tsx:45-48 | So does any sequence of callbacks. |
| `App.ReachableNeverBlank` | App.tsx:27 | From the initial state, no sequence of callbacks reaches a blank frame. |
| `App.UncheckedCastBlanksScreen` | App.tsx:47 | A string outside the union, such as `"settings"`, would blank the frame. |
| `App.Transitions` | App.tsx:127-205 | The table, for the events each screen offers: <ul><li>dashboard → settings menu or being management;</li><li>menu close → dashboard;</li><li>back from being management → dashboard;</li><li>back from any editor → settings menu;</li><li>save from an editor → dashboard;</li><li>menu entries → their view strings;</li><li>menu logout → `Logout`.</li></ul> |
| `App.BackDiscardsDraft` | App.tsx:156-205 | Edit any number of times and press back: the record is untouched and the menu shows. |
| `App.SaveCommitsDraft` | App.tsx:156-205 | Edit and press save: the editor's field holds the last edit (or its old value) and the dashboard shows. |
| `MockService.ToActionArea` | services/mockService.ts:128-137 | The area keeps the outer `objectId` and copies name, order, target flag, slider bounds and step, questions and checklist from its base action. |
| `MockService.MapAreas` | services/mockService.ts:128-137 | One area per raw area, position for position. |
| `MockService.InsertByOrder` | services/mockService.ts:138 | Inserting into a sorted list gives a sorted list with one more element, namely the inserted one. |
| `MockService.SortByOrder` | services/mockService.ts:138 | The result is in nondecreasing `order` and is a permutation of the input. |
| `MockService.SortStable` | services/mockService.ts:138 | Areas sharing an `order` keep their relative order. |
| `MockService.GetActionAreas` | services/mockService.ts:124-142 | The mapped seed areas, sorted by `order`, as a permutation of the same length. |
| `MockService.SortKeepsObjectIds` | services/mockService.ts:128-138 | Each raw object id occurs among the sorted areas exactly as often as among the raw ones. |
| `MockService.IndexedEntries` | services/mockService.ts:164-165 | Entry `i` carries text `i` of the input and id `i.toString()`. |
| `MockService.IndexedIdsDistinct` | services/mockService.ts:164-165 | Index-derived ids are distinct within a list. |
| `MockService.GetAppData` | services/mockService.ts:148-186 | The record is built from the seed tables: <ul><li>identities are the energies, or `[]`;</li><li>areas equal `getActionAreas`;</li><li>challenges and recovery strategies are the blockers and releasers with index ids;</li><li>the title is the target, or the default when the target is missing or empty;</li><li>the achievement date and description and the key task are the fixed seed values, and the key task starts uncompleted;</li><li>the three free texts are empty and the practice time is `20:00`;</li><li>the statistics are the ones passed in;</li><li>the pools are the intents, challenges and assists.</li></ul> |
| `MockService.FetchedIdsDistinct` | services/mockService.ts:164-165 | In the fetched record, challenge ids are unique and so are recovery-strategy ids. |
| `MockService.SeedRecord` | services/mockService.ts:7-28 | For the seed direction: the four seed energies, the seed target as title, and two challenges. |

## Left out

- Rendering: JSX, styling, animation, icons and charts. The styling wrappers `NeuButton`, `NeuInput` and `NeuCard` are not part of this model.
- `NeuSlider`: its only computation is a floating-point fill percentage.
- The login screen's `setTimeout` loading flag. Only its effect, the flag becoming true, is modelled (`App.Login`).
- The simulated latency of both provider calls, React effect scheduling and the order in which the fetch completes. The record's arrival is an event (`DataLoaded`) that may come at any time and more than once. The program fetches once, on mount, so a second arrival that overwrites edits is an artefact of the model, not program behaviour.
- The admin panel's show/hide toggle, its active tab and its search-query state. The search itself is modelled.
- The dashboard statistics block, which uses `Math.random`, `Date.now` and `toLocaleDateString`. It is a parameter of `GetAppData`.
- `Date.now()` as an id source. Ids are a parameter, and a clock reading in the scenario lemma.
- The six raw action-area seed entries and the three pool lists. They are parameters of `GetActionAreas` and `GetAppData`. Only the direction seed is a constant.
- `App.HandleDataUpdate`: it covers the string-valued keys its callers pass, plus `keyTaskTitle`. It does not cover writing a string into a non-string key, which the TypeScript signature allows but no caller does.
- `DesktopAdmin.UpdateKeyAchievement`: it covers the three keys its inputs pass. It does not cover an arbitrary key string adding a new property to the key achievement.
- `JsText.NatToString`: it prints plain decimal digits for every natural. ECMAScript prints numbers from 10^21 up in exponent form (`"1e+21"`), so the model agrees with `toString` only below 10^21. Indexes and millisecond clock readings stay far below that.
- JavaScript numbers: `order`, slider values and indexes are unbounded integers, and `order` comparisons cannot overflow or be NaN.
- That neither identity operation mutates the caller's list. Dafny sequences are values, so this holds by construction and is not stated.
- The `subarea`, `UserState`, `BeingContextType` and `ActionSubArea` types, which no modelled code reads.
