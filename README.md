# Task manager: a verified model of its pages and its API

The task manager is a small web application. Its backend is written with FastAPI and SQLAlchemy. It keeps users and their tasks and serves:

- registration and login;
- creating, listing, completing and deleting tasks;
- spreadsheet import and export.

Its frontend is written with Next.js and React and has:

- a login form;
- a route-gating middleware and a client-side `AuthProvider`;
- a dashboard, which filters, sorts and edits the task list;
- three read-only list pages: all tasks, due today, completed.

This project models that behaviour in Dafny and proves properties of the model.

The project has twelve modules:

| module | what it holds |
|---|---|
| `Wrappers` | `Option` and `Result` |
| `Sequences` | a stable insertion sort over a comparator, a filter on sequences, and lemmas about both (sortedness, permutation, stability, idempotence, the reversed comparator) |
| `TaskView` | the dashboard's derived list: a status filter, then one of four sorts |
| `PageViews` | what the three list pages keep and show: counters, row labels, the date test, badges, placeholders |
| `Cookies` | the cookie jar, the `document.cookie` text it yields, the token the pages parse out of that text, and the `Authorization` header built from it |
| `BrowserStore` | the browser the pages share: a class holding that jar and `localStorage`, plus router navigations |
| `SessionGate` | the middleware of `frontend/app/middleware.ts` with its matcher (what it would decide if Next.js loaded it; see below), and the `AuthProvider` effect as a class |
| `Login` | the login page as a class |
| `ClientPages` | the dashboard and the list pages as classes |
| `Schemas` | request-body validation |
| `Crud` | the data layer as a `Database` class |
| `Routes` | the API handlers over that class |

Pages and the database are classes whose methods change their fields. Each method's `ensures` ties:

- the new state,
- the requests sent,
- and the navigation asked for

to a pure step function of the old state, and the lemmas are stated about those functions.

Some inputs are parameters rather than definitions:

- **Library behaviour:**
  - `parse` gives the instant `new Date(s)` denotes;
  - `titleLe` is `localeCompare`, assumed to be a total preorder where ordering is claimed;
  - `hash`, `verify` and `mint` stand for password hashing and JWT creation;
  - the clock is `now` and `today`.
- **Network and files:**
  - a response, or a thrown error, is an input value;
  - a spreadsheet arrives as its parsed rows, or as the message of the error raised while reading it;
  - a commit error arrives as its message.

## Model

| member | source | states |
|---|---|---|
| `TaskView.OverdueMeaning` | frontend/app/dashboard/page.tsx:169-172 | a completed task is never overdue; an incomplete one is overdue exactly when its due instant is strictly before now, and stays overdue later |
| `TaskView.IsOverdue` | frontend/app/dashboard/page.tsx:169-172 | definition of `isOverdue`; characterised by `TaskView.OverdueMeaning` |
| `TaskView.DeriveContents` | frontend/app/dashboard/page.tsx:271-294 | the derived list holds each task the filter accepts exactly as often as the page's list does, and no other task |
| `TaskView.DeriveAllKeepsEverything` | frontend/app/dashboard/page.tsx:271-294 | with filter `all` the derived list is a permutation of all tasks |
| `TaskView.FiltersPartition` | frontend/app/dashboard/page.tsx:273-283 | `completed` and `pending` split the list into two parts; `overdue` only shows pending tasks |
| `TaskView.ComparatorIsPreorder` | frontend/app/dashboard/page.tsx:282-292 | every sort's comparator is a total preorder when the title order is one |
| `TaskView.DeriveSorted` | frontend/app/dashboard/page.tsx:282-292 | each sort orders the result by its key: due instants ascending or descending, titles by the title order or its reverse |
| `TaskView.DeriveStable` | frontend/app/dashboard/page.tsx:282-292 | tasks that tie under the comparator keep their filtered order |
| `TaskView.DeriveIdempotent` | frontend/app/dashboard/page.tsx:271-294 | deriving again from a derived list with the same selection changes nothing |
| `TaskView.DueDescReversesAsc` | frontend/app/dashboard/page.tsx:284-292 | without shared due instants, the descending sort is the exact reverse of the ascending one |
| `TaskView.OverdueScenario` | frontend/app/dashboard/page.tsx:280-282 | in one concrete list, only the incomplete task whose due date has passed is kept by the overdue filter |
| `TaskView.FilterLabelsDistinct` | frontend/app/dashboard/page.tsx:262-269 | the four filter labels are pairwise distinct |
| `TaskView.Derive` | frontend/app/dashboard/page.tsx:271-294 | definition of `filteredAndSortedTasks`; characterised by `TaskView.DeriveContents`, `DeriveSorted`, `DeriveStable` and `DeriveIdempotent` |
| `TaskView.FilterLabel` | frontend/app/dashboard/page.tsx:262-269 | definition of `getFilterLabel`; characterised by `TaskView.FilterLabelsDistinct` |
| `PageViews.ActiveWithinTotal` | frontend/app/tasks/all-tasks/page.tsx:131-136 | Active counts exactly the incomplete tasks, adds up with the completed ones to Total, equals Total iff nothing is completed, and equals the size of the dashboard's pending view |
| `PageViews.ActiveCount` | frontend/app/tasks/all-tasks/page.tsx:136 | definition of the Active counter; characterised by `PageViews.ActiveWithinTotal` |
| `PageViews.RowLabel` | frontend/app/tasks/all-tasks/page.tsx:171-215 | definition of the row label; characterised by `PageViews.RowLabelChoice` |
| `PageViews.RowLabelChoice` | frontend/app/tasks/all-tasks/page.tsx:171-215 | exactly one label per row: Finished iff completed, Overdue iff incomplete and past due (the overdue filter itself), Pending otherwise |
| `PageViews.DescriptionCell` | frontend/app/tasks/all-tasks/page.tsx:192 | an empty description shows the placeholder, any other is shown as is |
| `PageViews.DescriptionCellsNeverBlank` | frontend/app/tasks/due-today/page.tsx:176 | with either page's placeholder (`No description provided`, `No details added`) a description cell is never blank, and an empty description shows that placeholder |
| `PageViews.DatePart` | frontend/app/tasks/due-today/page.tsx:66-70 | the date part is the prefix of the due text before its first `T`, or the whole text |
| `PageViews.DatePartMatches` | frontend/app/tasks/due-today/page.tsx:66-70 | a due text is due today iff it equals today's `YYYY-MM-DD` or begins with it followed by `T` |
| `PageViews.DueTodayExact` | frontend/app/tasks/due-today/page.tsx:66-71 | the page keeps each task due today as often as fetched and no other, in fetched order |
| `PageViews.DueToday` | frontend/app/tasks/due-today/page.tsx:66-71 | definition of the due-today filter; characterised by `PageViews.DueTodayExact` and `PageViews.DatePartMatches` |
| `PageViews.RemainingCountsIncomplete` | frontend/app/tasks/due-today/page.tsx:124 | the remaining badge counts the fetched tasks that are both due today and incomplete |
| `PageViews.Remaining` | frontend/app/tasks/due-today/page.tsx:124 | definition of the remaining badge count; characterised by `PageViews.RemainingCountsIncomplete` |
| `PageViews.TodayBadge` | frontend/app/tasks/due-today/page.tsx:191 | `Done` iff completed, `Due Today` iff not |
| `PageViews.CompletedOnlyExact` | frontend/app/tasks/completed/page.tsx:57-58 | the page keeps exactly the completed tasks, in fetched order, and keeping them again changes nothing |
| `PageViews.CompletedOnly` | frontend/app/tasks/completed/page.tsx:57-58 | definition of the completed filter; characterised by `PageViews.CompletedOnlyExact` |
| `PageViews.TaskNoun` | frontend/app/tasks/completed/page.tsx:182 | singular iff the count is one |
| `Cookies.SplitJoin` | frontend/components/auth-provider.tsx:38-39 | splitting on `"; "` recovers the entries the jar was joined from, when none contains `;` |
| `Cookies.SplitEntries` | frontend/components/auth-provider.tsx:38-39 | definition of `split('; ')`; characterised by `Cookies.SplitJoin` |
| `Cookies.CookieText` | frontend/components/auth-provider.tsx:38 | definition of the `document.cookie` text of a jar; characterised by `Cookies.SplitJoin` and `Cookies.CookieTextToken` |
| `Cookies.SetCookieLookup` | frontend/app/auth/login/page.tsx:48 | after a cookie write, its name maps to the value up to the first `;`; every other name keeps its value |
| `Cookies.SetCookieWellFormed` | frontend/app/auth/login/page.tsx:48 | a cookie write keeps the jar well formed (non-empty names without `=` or `;`, one entry per name) |
| `Cookies.SetCookie` | frontend/app/auth/login/page.tsx:48 | definition of a cookie write; characterised by `Cookies.SetCookieLookup` and `Cookies.SetCookieWellFormed` |
| `Cookies.ExpireCookieLookup` | frontend/app/dashboard/page.tsx:105 | after expiring a cookie its name is absent; every other name keeps its value |
| `Cookies.ExpireCookieWellFormed` | frontend/app/dashboard/page.tsx:105 | expiring keeps the jar well formed |
| `Cookies.ExpireCookie` | frontend/app/dashboard/page.tsx:105 | definition of expiring a cookie; characterised by `Cookies.ExpireCookieLookup` and `Cookies.ExpireCookieWellFormed` |
| `Cookies.TokenFromCookieMeaning` | frontend/components/auth-provider.tsx:38-41 | the parsed token is absent iff no entry starts with `token=`; otherwise it is the text of the first such entry between its first and second `=` |
| `Cookies.TokenFromCookie` | frontend/components/auth-provider.tsx:38-41 | definition of the token parse; characterised by `Cookies.TokenFromCookieMeaning` and `Cookies.CookieTextToken` |
| `Cookies.CookieTextToken` | frontend/app/dashboard/page.tsx:111-116 | for a well-formed jar the parsed token is the `token` cookie's value up to its first `=`, absent iff there is no such cookie, and the value itself when it has no `=` |
| `Cookies.JarAuthorization` | frontend/app/dashboard/page.tsx:111-121 | a jar without a token yields `Bearer undefined`; a jar with one yields `Bearer ` and the value up to its first `=` |
| `Cookies.Bearer` | frontend/app/dashboard/page.tsx:118 | the header starts with `Bearer ` followed by the JavaScript text of the token |
| `Cookies.AuthHeaders` | frontend/app/dashboard/page.tsx:111-121 | the content type is JSON; the header is `Bearer undefined` without a token and `Bearer <token>` with one |
| `BrowserStore.Browser.GetItem` | frontend/app/tasks/all-tasks/page.tsx:46 | an item is present iff its key is stored, and then it is the stored value |
| `BrowserStore.Browser.WriteCookie` | frontend/app/auth/login/page.tsx:48 | the jar stays well formed, the name maps to the value up to `;`, other cookies and localStorage are unchanged |
| `BrowserStore.Browser.ExpireCookie` | frontend/app/dashboard/page.tsx:105 | the jar stays well formed, the name is absent afterwards, other cookies and localStorage are unchanged |
| `BrowserStore.Browser.SetItem` | frontend/app/auth/login/page.tsx:47 | localStorage gains the key with the value; the jar is unchanged |
| `SessionGate.MiddlewareOutcomes` | frontend/app/middleware.ts:4-25 | in both directions: redirect to `/login` iff protected without a token, to `/dashboard` iff `/login` with one, pass otherwise; the two redirects never overlap |
| `SessionGate.Middleware` | frontend/app/middleware.ts:4-25 | definition of `middleware`; characterised by `SessionGate.MiddlewareOutcomes` and `SessionGate.MiddlewarePasses`; this is what the function decides, since the file sits under `app/`, where Next.js may not load it |
| `SessionGate.IsProtected` | frontend/app/middleware.ts:8-10 | definition of the protected-prefix test, shared with auth-provider.tsx:29-30; characterised by `SessionGate.LoginNotProtected` and `SessionGate.MatcherNarrowerThanPrefix` |
| `SessionGate.MiddlewarePasses` | frontend/app/middleware.ts:8-22 | a protected path with a token passes, and `/auth/login` always passes |
| `SessionGate.LoginNotProtected` | frontend/app/middleware.ts:8-12 | `/login` is not a protected path, so the two redirect rules never fire on the same path |
| `SessionGate.MatcherNarrowerThanPrefix` | frontend/app/middleware.ts:27-33 | `/tasksX` is protected but never matched, so it passes without a token; `/tasks/all-tasks` is redirected; on matched paths the gate is the middleware; like every middleware row, this is what the file decides if it is loaded, which its location under `app/` may prevent |
| `SessionGate.Matched` | frontend/app/middleware.ts:27-33 | definition of the matcher; characterised by `SessionGate.MatcherNarrowerThanPrefix` |
| `SessionGate.Gate` | frontend/app/middleware.ts:4-33 | definition of the matcher followed by the middleware, as it would run if Next.js loads the file; characterised by `SessionGate.MatcherNarrowerThanPrefix` and `SessionGate.ProviderAgreesWithMiddleware` |
| `SessionGate.EffectOutcomes` | frontend/components/auth-provider.tsx:27-50 | off the protected prefix only loading ends; with no token the effect pushes `/auth/login` and leaves the state untouched; with one it ends authenticated and loaded; it never clears `isAuthenticated` |
| `SessionGate.Effect` | frontend/components/auth-provider.tsx:27-50 | definition of the effect; characterised by `SessionGate.EffectOutcomes`, `StaleAfterLogout` and `ProviderAgreesWithMiddleware`, and run by `SessionGate.AuthProvider.RunEffect` |
| `SessionGate.StaleAfterLogout` | frontend/components/auth-provider.tsx:43-49 | after the cookie is gone an already authenticated provider stays authenticated while it navigates away |
| `SessionGate.ProviderAgreesWithMiddleware` | frontend/components/auth-provider.tsx:29-46 | on matched protected paths, and for tokens without `=`, the provider navigates to its login page iff the middleware would redirect to `/login`; a statement about the two definitions, which holds only as far as the middleware is loaded at all |
| `SessionGate.AuthProvider.constructor` | frontend/components/auth-provider.tsx:24-25 | the provider starts not authenticated and loading |
| `SessionGate.AuthProvider.RunEffect` | frontend/components/auth-provider.tsx:27-50 | the new state and the navigation are exactly those of the effect function |
| `SessionGate.UseAuthHeaders` | frontend/components/auth-provider.tsx:69-78 | JSON content type; `Bearer undefined` for a jar without a token, `Bearer ` and the value up to `=` otherwise |
| `Login.LoginBodyReadsTyped` | frontend/app/auth/login/page.tsx:28-30 | the form body built from the two inputs reads back, by field name, exactly the typed username and password, and no other field |
| `Login.DeniedMessage` | frontend/app/auth/login/page.tsx:42 | the server's `detail`, or `Invalid credentials` when it is missing or empty |
| `Login.LoginStoresAgree` | frontend/app/auth/login/page.tsx:47-48 | the cookie written at login parses back to the token given to localStorage, and the dashboard then sends `Bearer <token>` |
| `Login.LogoutClearsCookieToken` | frontend/app/dashboard/page.tsx:103-108 | after logout the cookie token is absent and the dashboard sends `Bearer undefined` |
| `Login.LoginPage.constructor` | frontend/app/auth/login/page.tsx:18-21 | the form starts empty, without an error and not loading |
| `Login.LoginPage.HandleSubmit` | frontend/app/auth/login/page.tsx:23-54 | sends exactly the typed username and password as form fields (`Login.LoginBody`); on success writes both stores (cookie for one day), keeps `loading` set and replaces the page with `/dashboard`; on a refusal or a thrown error leaves both stores alone, clears `loading` and sets the matching message |
| `Login.LoginPage.SetUsername` | frontend/app/auth/login/page.tsx:84 | typing sets the username to the input's text and leaves the password, the error and `loading` alone |
| `Login.LoginPage.SetPassword` | frontend/app/auth/login/page.tsx:97 | typing sets the password to the input's text and leaves the username, the error and `loading` alone |
| `ClientPages.FetchNav` | frontend/app/dashboard/page.tsx:130-133 | a navigation to `/login` iff the response is a 401 |
| `ClientPages.FetchOutcomes` | frontend/app/tasks/due-today/page.tsx:42-80 | a fetch changes the list only on success, and then to what the page keeps (all, due today, completed) counted exactly; a 401 leaves the list alone |
| `ClientPages.Stored` | frontend/app/tasks/completed/page.tsx:48-62 | definition of the list after a fetch; characterised by `ClientPages.FetchOutcomes` |
| `ClientPages.Fetched` | frontend/app/dashboard/page.tsx:124-143 | definition of the dashboard state after a fetch; characterised by `ClientPages.FetchOutcomes` and used by `ClientPages.Dashboard.FetchTasks` |
| `ClientPages.CompleteStep` | frontend/app/dashboard/page.tsx:174-184 | definition of `completeTask`'s effect; characterised by `ClientPages.MutationsRefetchOnlyOnOk` |
| `ClientPages.UpdateStep` | frontend/app/dashboard/page.tsx:194-214 | definition of `updateTask`'s effect; characterised by `ClientPages.MutationGuards`, `MutationsRefetchOnlyOnOk`, `MutationsResetDialogs` and `EditSendsTypedFields` |
| `ClientPages.DeleteStep` | frontend/app/dashboard/page.tsx:221-236 | definition of `deleteTask`'s effect; characterised by `ClientPages.MutationGuards`, `MutationsRefetchOnlyOnOk`, `MutationsResetDialogs` and `CancelDisarmsDeleteOnly` |
| `ClientPages.CreateStep` | frontend/app/dashboard/page.tsx:238-260 | definition of `createTask`'s effect; characterised by `ClientPages.MutationGuards`, `MutationsRefetchOnlyOnOk`, `MutationsResetDialogs` and `CreateSendsTypedFields` |
| `ClientPages.MutationGuards` | frontend/app/dashboard/page.tsx:194-260 | in both directions: update, delete and create send nothing iff their guard holds (no task being edited; no id or id 0; an empty title or due date), and then change nothing |
| `ClientPages.MutationsRefetchOnlyOnOk` | frontend/app/dashboard/page.tsx:174-260 | a mutation refetches with the same credential only on an ok reply; otherwise one request went out and the state is unchanged |
| `ClientPages.MutationsResetDialogs` | frontend/app/dashboard/page.tsx:194-260 | on an ok reply each handler closes and resets its own dialog, and create clears its fields, leaving the other dialogs alone |
| `ClientPages.EditSendsTypedFields` | frontend/app/dashboard/page.tsx:194-213 | what was typed into the edit form is exactly the body `updateTask` sends, for the task being edited |
| `ClientPages.CreateSendsTypedFields` | frontend/app/dashboard/page.tsx:238-256 | what was typed into the create form is exactly the body `createTask` sends; nothing is sent iff the typed title or due date is empty |
| `ClientPages.CancelDisarmsDeleteOnly` | frontend/app/dashboard/page.tsx:517-533 | after the delete dialog's Cancel, `deleteTask` sends and changes nothing; closing the edit dialog keeps `editingTask`, so `updateTask` would still send |
| `ClientPages.Dashboard.Authorization` | frontend/app/dashboard/page.tsx:111-121 | `Bearer undefined` for a jar without a token, `Bearer ` and the token's value otherwise |
| `ClientPages.Dashboard.Visible` | frontend/app/dashboard/page.tsx:271-294 | the shown list is a sub-multiset of the page's tasks |
| `ClientPages.Dashboard.HandleLogout` | frontend/app/dashboard/page.tsx:103-108 | the cookie token is gone, localStorage is unchanged, and the page pushes `/auth/login` |
| `ClientPages.Dashboard.SetFilter` | frontend/app/dashboard/page.tsx:351 | only the filter changes |
| `ClientPages.Dashboard.SetSort` | frontend/app/dashboard/page.tsx:370 | only the sort changes |
| `ClientPages.Dashboard.OpenEditDialog` | frontend/app/dashboard/page.tsx:186-192 | the edit fields take the task's values and the dialog opens; nothing else changes |
| `ClientPages.Dashboard.constructor` | frontend/app/dashboard/page.tsx:80-100 | the initial state: no tasks, loading, filter `all`, sort by due date ascending, every dialog closed and every field empty |
| `ClientPages.Dashboard.SetCreateDialogOpen` | frontend/app/dashboard/page.tsx:379-405 | the trigger, Cancel and `onOpenChange` only open or close the create dialog; the typed fields are kept |
| `ClientPages.Dashboard.SetEditDialogOpen` | frontend/app/dashboard/page.tsx:496-517 | `onOpenChange` and Cancel only open or close the edit dialog; `editingTask` and the edit fields are kept |
| `ClientPages.Dashboard.SetDeleteDialogOpen` | frontend/app/dashboard/page.tsx:524 | `onOpenChange` only opens or closes the delete dialog |
| `ClientPages.Dashboard.CancelDelete` | frontend/app/dashboard/page.tsx:533 | Cancel clears `deletingTaskId` and nothing else |
| `ClientPages.Dashboard.SetNewTitle` | frontend/app/dashboard/page.tsx:393 | typing changes only the new title |
| `ClientPages.Dashboard.SetNewDescription` | frontend/app/dashboard/page.tsx:397 | typing changes only the new description |
| `ClientPages.Dashboard.SetNewDueDate` | frontend/app/dashboard/page.tsx:401 | typing changes only the new due date |
| `ClientPages.Dashboard.SetEditTitle` | frontend/app/dashboard/page.tsx:505 | typing changes only the edited title |
| `ClientPages.Dashboard.SetEditDescription` | frontend/app/dashboard/page.tsx:509 | typing changes only the edited description |
| `ClientPages.Dashboard.SetEditDueDate` | frontend/app/dashboard/page.tsx:513 | typing changes only the edited due date |
| `ClientPages.Dashboard.OpenDeleteDialog` | frontend/app/dashboard/page.tsx:216-219 | the id to delete is set and the dialog opens; nothing else changes |
| `ClientPages.Dashboard.FetchTasks` | frontend/app/dashboard/page.tsx:124-143 | the state after the fetch, the GET request with the cookie credential, and the 401 navigation |
| `ClientPages.Dashboard.CompleteTask` | frontend/app/dashboard/page.tsx:174-184 | the outcome is `CompleteStep` of the old state |
| `ClientPages.Dashboard.UpdateTask` | frontend/app/dashboard/page.tsx:194-214 | the outcome is `UpdateStep` of the old state |
| `ClientPages.Dashboard.DeleteTask` | frontend/app/dashboard/page.tsx:221-236 | the outcome is `DeleteStep` of the old state |
| `ClientPages.Dashboard.CreateTask` | frontend/app/dashboard/page.tsx:238-260 | the outcome is `CreateStep` of the old state |
| `ClientPages.ListPage.constructor` | frontend/app/tasks/all-tasks/page.tsx:39-40 | a list page starts with no tasks and loading |
| `ClientPages.ListPage.Authorization` | frontend/app/tasks/all-tasks/page.tsx:46-54 | `Bearer null` without a stored token, `Bearer <token>` with one |
| `ClientPages.ListPage.FetchTasks` | frontend/app/tasks/completed/page.tsx:34-66 | the list becomes what the page keeps of an ok response and is left alone otherwise; loading ends; a 401 navigates to `/login` |
| `Schemas.Description` | backend/app/schemas.py:6 | an unset description is `""` and a set one is kept |
| `Schemas.FutureDueDate` | backend/app/schemas.py:9-13 | refused iff strictly before now, otherwise returned unchanged |
| `Schemas.ValidateTask` | backend/app/schemas.py:4-13 | accepted iff the title and the due date are present and the due date is not in the past, with the fields unchanged; otherwise each error is reported iff its condition holds |
| `Schemas.TaskErrors` | backend/app/schemas.py:4-13 | definition of the list of field errors; characterised by `Schemas.ValidateTask` |
| `Schemas.RevalidateUnchanged` | backend/app/schemas.py:9-13 | a body accepted at one moment is accepted again, with the same fields, at any later moment up to its due date |
| `Crud.CompleteInMeaning` | backend/app/crud.py:17-23 | marking complete touches one row and one field of it, leaves the keys unchanged, and is idempotent |
| `Crud.CompleteIn` | backend/app/crud.py:17-23 | definition of marking a row complete; characterised by `Crud.CompleteInMeaning` |
| `Crud.SetFields` | backend/app/crud.py:37 | the assignments are the title first and the due date last, with the set description between them when there is one; every assignment carries the update's own value, and a description assignment occurs only when the description was set |
| `Crud.ApplySetFields` | backend/app/crud.py:33-43 | the `setattr` loop yields the patched row: title and due date overwritten, the description only when set, `completed` and the owner untouched |
| `Crud.Patched` | backend/app/crud.py:33-43 | the independent definition of the updated row; `Crud.ApplySetFields` proves the loop yields it |
| `Crud.FirstUserFrom` | backend/app/crud.py:64-65 | the smallest id in range with the name; absent iff no such user |
| `Crud.Database.Insert` | backend/app/crud.py:6-9 | the row is stored under the next, fresh id; nothing else changes |
| `Crud.Database.CreateTask` | backend/app/crud.py:4-9 | a new, not completed task without an owner under a fresh id |
| `Crud.Database.GetTasks` | backend/app/crud.py:11-15 | exactly the rows matching the `completed` filter, or all of them |
| `Crud.Database.MarkTaskCompleted` | backend/app/crud.py:17-23 | found iff the id exists; the table becomes `CompleteIn` of the old one |
| `Crud.Database.DeleteTask` | backend/app/crud.py:25-31 | true iff the id existed; the row is removed and no other |
| `Crud.Database.UpdateTask` | backend/app/crud.py:33-43 | found iff the id exists; the row becomes the patched row and no other row changes |
| `Crud.Database.CreateUser` | backend/app/crud.py:46-52 | the user is stored under a fresh id with the password's hash, never the password |
| `Crud.Database.GetUserByUsername` | backend/app/crud.py:64-65 | the smallest id with that name, absent iff there is none |
| `Crud.Database.AuthenticateUser` | backend/app/crud.py:55-61 | a user iff the first user of that name exists and the password verifies against its hash; absent when the name is unknown or that user's password does not verify |
| `Crud.Database.Authenticated` | backend/app/crud.py:55-61 | definition of the user `authenticate_user` finds; characterised by `Crud.Database.AuthenticateUser` and used by `Routes.Login` |
| `Routes.Owned` | backend/app/routes/tasks.py:91 | exactly the rows whose owner is the user |
| `Routes.OwnedEmpty` | backend/app/routes/tasks.py:195-198 | a user owns nothing iff no row carries their id |
| `Routes.ImportDefaults` | backend/app/routes/tasks.py:158-173 | a row with no columns becomes `Untitled Task`, empty description, due now, not completed; every row is owned by the caller; a missing due date is now |
| `Routes.ImportedRow` | backend/app/routes/tasks.py:158-173 | definition of the task one row becomes; characterised by `Routes.ImportDefaults` |
| `Routes.ImportedPrefix` | backend/app/routes/tasks.py:157-175 | the first n rows under consecutive ids from the start id, each the imported task of its row |
| `Routes.StageRows` | backend/app/routes/tasks.py:157-175 | the count is the number of rows, and the session holds the old table plus every row under consecutive fresh ids |
| `Routes.ExcelName` | backend/app/routes/tasks.py:141 | definition of the file-name test; characterised by `Routes.ExcelNameCases` |
| `Routes.ExcelNameCases` | backend/app/routes/tasks.py:141 | `.xlsx` and `.xls` endings are accepted with their dot; other endings, a bare `xlsx` and upper-case extensions are refused |
| `Routes.Register` | backend/app/routes/tasks.py:32-40 | a taken username gives 400 and adds nothing; otherwise one user is added under a fresh id; distinct usernames stay distinct |
| `Routes.Login` | backend/app/routes/tasks.py:43-67 | success iff authentication finds a user, with a bearer token minted for the username; otherwise 401 |
| `Routes.CreateTask` | backend/app/routes/tasks.py:72-83 | the new task is owned by the caller and stored under a fresh id |
| `Routes.ListTasks` | backend/app/routes/tasks.py:85-91 | exactly the caller's tasks |
| `Routes.CompleteTask` | backend/app/routes/tasks.py:94-111 | 404 and no change unless the task exists and is the caller's; otherwise it is marked complete and returned |
| `Routes.DeleteTask` | backend/app/routes/tasks.py:114-130 | 404 and no change unless the task exists and is the caller's; otherwise it alone is removed |
| `Routes.ImportTasks` | backend/app/routes/tasks.py:135-186 | 400 for a name not ending in `.xlsx` or `.xls`; 500 with the error text for an unreadable sheet, an empty sheet or a failed commit, keeping the table; otherwise every row is added as an owned task under fresh ids and the count is the number of rows |
| `Routes.ExportTasks` | backend/app/routes/tasks.py:190-198 | 404 iff the caller owns nothing, otherwise exactly the caller's tasks |

## Left out

- HTTP, JSON decoding, React rendering, `useEffect` scheduling and the router are not modelled as such. A response is an input value. A request and a navigation are output values.
- Handler ordering: an asynchronous handler and the refetch after it are modelled as running to completion in order, with no other event in between.
- The tables' list order is not modelled. A table is a map from id to row, and `.all()` returns that map. A `.first()` over usernames picks the smallest id.
- Date parsing, `localeCompare`, password hashing, JWT creation (`backend/app/auth.py`) and the clock are parameters, as described above.
- `formatDateTimeForInput` is left out. `OpenEditDialog` receives its result as `dueInput`.
- `Sequences.Sort`, which models the JavaScript sort, is a stable insertion sort. A comparator that is not a preorder is not modelled; this covers a `NaN` from an unparsable date.
- `get_current_user` is not part of this model; the caller arrives as a user id. `app/models.py` is not part of this model either; a new task is taken to be not completed by default.
- Spreadsheet reading and writing (pandas) are left out. An upload arrives as its parsed rows, or as the message of the error raised while reading it. The export's file building and streaming are left out; the export returns the caller's rows.
- `Routes.ImportedRow`: a cell is typed by its column (`Cell<string>`, `Cell<bool>`), so `str()` and `bool()` of a cell of another type are not modelled. For example, the text `False` in the `completed` column is truthy and imports as completed; the model has no such cell.
- `SessionGate.Middleware`, `SessionGate.Gate`: the file is `frontend/app/middleware.ts`. Next.js loads middleware only from the project root or from `src/`, so this gate may never run. The model states what the middleware decides if it runs, and the client-side `AuthProvider` is the gate that surely runs.
- `Routes.ImportTasks`: an unparsable due date is modelled like a missing one, because pandas turns it into `NaT`. Rows enter the session in order, and a commit failure discards them all. The error text is modelled as a given string. `str()` of other exceptions is not modelled.
- An import's success message is modelled as the count it reports.
- The dashboard's `PATCH /api/tasks/{id}` has no matching route among the handlers. The model therefore has no route behind it. `crud.update_task` is modelled on its own.
- The landing page, the register page, the import/export page and the sidebar are context for the core and are not modelled.
- `Cookies.SetCookie` does not model cookie attributes (`path`, `SameSite`) or the expiry clock. A `max-age` is recorded but never expires in the model; expiring a cookie removes it at once.
- A non-string `detail` in an error body is not modelled. `Login.DeniedMessage` takes the detail as an optional string.
- `Login.LoginPage.HandleSubmit` does not model a response whose body is not JSON separately. Like a network error, it becomes `Failed`, because both are caught by the same `catch`.
- `Login.LoginPage.HandleSubmit` does not model the browser's `required` check on both inputs (frontend/app/auth/login/page.tsx:86, :99), which stops an empty form from being submitted. The method accepts empty fields, because that check happens before the handler runs.
- `Login.LoginPage.SetUsername`, `Login.LoginPage.SetPassword`: the inputs are `disabled` while `loading` (frontend/app/auth/login/page.tsx:85, :98). The methods do not require `!loading`, because that is a property of the browser, not of the handlers.

## Where the model follows the code

These are places where the code's behaviour differs from what one might expect. The model shows each of them.

- Logout expires the cookie only. The token stays in `localStorage`, and the list pages read their credential from there.
- The middleware redirects to `/login`. The provider and logout navigate to `/auth/login`, which the middleware lets through.
- The middleware's matcher is narrower than its own prefix test. `/tasksX` is protected but never reaches the middleware.
- `!deletingTaskId` also treats the id `0` as absent, so task 0 cannot be deleted from the dashboard.
- After a successful login `loading` stays set while the page is replaced.
- The 400 for an empty spreadsheet is raised inside the `try` and caught. The caller therefore receives a 500 whose text contains the 400.
- In an imported row, an empty title cell becomes the text `nan`, and an empty `completed` cell counts as completed.
- `update_task` always overwrites the title and the due date, since both are required fields of the update body.
