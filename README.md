# Acelera Mídia portfolio site — a Dafny model of its state logic

The site is a single-page marketing site with a portfolio carousel and a
password-gated admin area that creates, updates and deletes portfolio
entries stored in Firestore, with cover images in Firebase Storage. This
project models the part of it that is logic rather than markup:

- **App** (`App.dfy`, from `App.tsx`): the top-level component's state —
  the cached project list, the admin flag, the session flag, the route and
  the loading flag — as a class `AppState` whose methods are the handlers
  (`checkAuthAndFetchData`, `handleLoginAttempt`, `handleLogout`,
  `addProject`, `updateProject`, `deleteProject`, the `hashchange`
  listener, `renderContent`). Each call to the record store or the object
  store is an outcome parameter (success with a fresh id, object not found,
  or failure), the clock is a `now` parameter, and every handler that calls
  a store returns the remote calls it made and the alert it raised
  (`HandleLoginAttempt` returns only its alert, `HandleLogout` nothing). The page dispatch is
  the pure function `RenderContent`.
- **ProjectList** (`ProjectList.dfy`): the `Project` record and the list
  transforms the handlers apply — prepend, replace by id, filter by id,
  find by id, documents to records — with id-uniqueness and
  "nothing else changes" lemmas.
- **Portfolio** (`Portfolio.dfy`, from `components/PortfolioSection.tsx`):
  the cache-busting image URL, the doubled carousel list and the empty
  placeholder.
- **AdminPanel** (`AdminPanel.dfy`, from `components/AdminPanel.tsx`): the
  index-based editor as a class `Panel` (projects, edit state, form) with
  its handlers, and pure helpers with their lemmas.
- **Strings** (`Strings.dfy`): `startsWith`, `includes`, ASCII
  `toLowerCase`, and the decimal rendering of an integer with a parser
  that inverts it. **Wrappers** (`Wrappers.dfy`): `Option`.

Two behaviours of the code shape the model: after each successful write
the local cache is patched (prepend, replace or filter) and never reloaded
from the store, and `deleteProject` deletes the image blob before the
document.

## Model

| member | source | states |
|---|---|---|
| `Strings.IncludesIffOccurs` | components/PortfolioSection.tsx:12 | `includes` holds exactly when the pattern occurs at some position of the string |
| `Strings.ToLowerIdempotent` | App.tsx:183 | lower-casing the lower-cased route changes nothing |
| `Strings.IntToStringRoundTrip` | components/PortfolioSection.tsx:14 | the digits written into the URL parse back to the millisecond value |
| `Strings.IntToStringInjective` | components/PortfolioSection.tsx:14 | distinct millisecond values are written as distinct strings |
| `Strings.NatToString` | components/PortfolioSection.tsx:14 | a number is written as a non-empty digit string without leading zeros |
| `ProjectList.NewProject` | App.tsx:109-114 | the record cached after an insert has the submitted fields, the store's id, and `now` as both timestamps |
| `ProjectList.PrependFresh` | App.tsx:115 | prepending grows the list by one, shifts every old record by one position, and keeps ids unique when the new id is fresh |
| `ProjectList.FindById` | App.tsx:137 | the result is absent exactly when no record has the id, and otherwise is the first record with it |
| `ProjectList.UpdatedProject` | App.tsx:135-139 | the updated record carries the submitted id, name, image and link, and `now` as `updated_at` |
| `ProjectList.UpdateAt` | App.tsx:135-143 | with unique ids, a successful update puts the submitted fields at the record's position, keeps its non-empty `created_at` (else uses `now`), and leaves every other position as it was |
| `ProjectList.ReplaceById` | App.tsx:142 | the length is kept, records with another id are unchanged, records with the id become the new record |
| `ProjectList.ReplaceAbsent` | App.tsx:142 | an update for an id not in the cache leaves the cache unchanged |
| `ProjectList.ReplaceKeepsIds` | App.tsx:142 | an update keeps every position's id, the id set, and id uniqueness |
| `ProjectList.RemoveByIdMembers` | App.tsx:167 | after the filter, a record is present exactly when it was present and has another id |
| `ProjectList.RemoveByIdAppend` | App.tsx:167 | the filter distributes over concatenation, so relative order is preserved |
| `ProjectList.RemoveAbsent` | App.tsx:167 | deleting an id that is not cached leaves the list unchanged |
| `ProjectList.RemoveUnique` | App.tsx:166-167 | with unique ids, deleting a cached id removes exactly one record, removes the id from the id set and keeps ids unique |
| `ProjectList.FromDoc` | App.tsx:60-69 | a fetched document keeps its id and fields; a missing timestamp becomes `now` |
| `ProjectList.FromDocs` | App.tsx:57-70 | the loaded list has one record per document, in the store's order |
| `ProjectList.FromDocsUnique` | App.tsx:60-71 | documents with distinct ids give a cache with unique ids |
| `Portfolio.DisplayUrl` | components/PortfolioSection.tsx:12-15 | the URL starts with the image URL; it is the image URL unless the image is a Firebase Storage URL with an `updated_at`, and then it continues with `&v=` and digits that parse back to `getTime(updated_at)` |
| `Portfolio.DisplayUrlAddsNoQuestionMark` | components/PortfolioSection.tsx:10-15 | nothing appended to the image URL is a `?`, so its token-bearing query string stays intact |
| `Portfolio.DisplayUrlTracksTimestamp` | components/PortfolioSection.tsx:13-15 | for one Firebase image, two timestamps give the same URL exactly when `getTime` gives them the same value |
| `Portfolio.DuplicatedItems` | components/PortfolioSection.tsx:42 | the list has length 2n (empty for no projects) and items i and i+n both equal project i |
| `Portfolio.Cards` | components/PortfolioSection.tsx:154-158 | one card per item, in order |
| `Portfolio.RenderPortfolio` | components/PortfolioSection.tsx:117-159 | the placeholder is shown exactly for an empty list; otherwise 2n cards, card i and i+n both showing project i |
| `App.RouteOfHash` | App.tsx:31 | the route is never empty: the hash without its `#`, or `/` when that is empty |
| `App.RenderContent` | App.tsx:174-234 | loading shows the loading view; a lower-cased route starting with `/admin` shows the dashboard (with the cached list) exactly when admin, else the login page; `/login` shows the login page; anything else the main site with the portfolio |
| `App.RenderIgnoresCase` | App.tsx:183 | a route and its lower-case form render the same page |
| `App.AdminGuardAlwaysRedirects` | App.tsx:185-200 | a route starting with `/admin` is never `/login`, so a visitor without a session is always redirected |
| `App.LoginRouteShowsLogin` | App.tsx:198-208 | after the redirect the next render shows the login page |
| `App.AppState.constructor` | App.tsx:29-32 | the first state: empty list, not admin, loading, route from the hash |
| `App.AppState.HandleHashChange` | App.tsx:34-40 | a hash change sets the route from the new hash |
| `App.AppState.CheckAuthAndFetchData` | App.tsx:43-77 | the session flag turns admin on; without a database nothing is fetched; a successful fetch replaces the list, a failed one keeps it and alerts; loading ends in every case |
| `App.AppState.HandleLoginAttempt` | App.tsx:82-90 | exactly the password `777` sets admin, the session flag and the `/admin` route; any other leaves state unchanged and alerts |
| `App.AppState.HandleLogout` | App.tsx:92-96 | admin and the session flag are cleared and the route is `/` |
| `App.AppState.AddProject` | App.tsx:98-120 | without a database, no call and no change; a successful insert prepends the new record; a failed one leaves the list unchanged; fresh ids keep ids unique |
| `App.AppState.UpdateProject` | App.tsx:122-148 | without a database, no call and no change; a successful write replaces the records with that id; a failed one, or an unknown id, leaves the list unchanged; the id set and uniqueness are kept |
| `App.AppState.DeleteProject` | App.tsx:151-172 | without database or storage, no call; an empty image skips the blob delete; a missing blob is tolerated; any other blob error or a failed document delete leaves the list unchanged; success filters the id out; uniqueness is kept |
| `App.AppState.Render` | App.tsx:174-236 | returns the dispatched view and, for `/admin` without a session, sets the route to `/login` |
| `AdminPanel.WithField` | components/AdminPanel.tsx:31-34 | the named form field takes the value and the other fields are unchanged |
| `AdminPanel.RemoveIndexSpec` | components/AdminPanel.tsx:55-60 | a confirmed delete removes exactly the row at the index, keeping order, and an index past the end removes nothing |
| `AdminPanel.SubmittedList` | components/AdminPanel.tsx:38-46 | while editing row k of a longer list the list keeps its length, holds the form at k and is unchanged elsewhere; with k equal to the length, or nothing in edit, the form is appended |
| `AdminPanel.EditingAfterDeleteAsWritten` | components/AdminPanel.tsx:55-60 | deleting leaves the edit state (and its index) as it was |
| `AdminPanel.StaleEditIndexOverwritesWrongRow` | components/AdminPanel.tsx:38-60 | with that delete, editing row 1 of [a, b, c], deleting row 0 and submitting gives [b, b] |
| `AdminPanel.StaleEditIndexRestoresDeletedRow` | components/AdminPanel.tsx:38-60 | with that delete, editing row 2 of [a, b, c], deleting row 2 and submitting gives [a, b, c]: the deleted row comes back |
| `AdminPanel.EditingAfterDelete` | components/AdminPanel.tsx:55-60 | deleting the edited row ends the edit; deleting any other row keeps the same entry in edit, its index one lower when the deleted row was above it and unchanged when below |
| `AdminPanel.EditingAfterDeleteKeepsTarget` | components/AdminPanel.tsx:38-60 | with the aligned delete, the edited row stays at the edit index after any delete, and deleting another row keeps that entry in edit |
| `AdminPanel.AlignedEditIndexOverwritesEditedRow` | components/AdminPanel.tsx:38-60 | with the aligned delete, the same sequence gives [b, c] |
| `AdminPanel.AlignedDeleteOfEditedRowEndsEdit` | components/AdminPanel.tsx:38-60 | with the aligned delete, deleting the edited row ends the edit and a submit appends a new row |
| `AdminPanel.Panel.constructor` | components/AdminPanel.tsx:18-19 | nothing is in edit and the form is blank |
| `AdminPanel.Panel.SyncForm` | components/AdminPanel.tsx:21-27 | the form mirrors the edited entry, or is blank when nothing is in edit |
| `AdminPanel.Panel.HandleInputChange` | components/AdminPanel.tsx:31-34 | only the named form field changes |
| `AdminPanel.Panel.HandleEdit` | components/AdminPanel.tsx:51-53 | the chosen row and its index are in edit and the form mirrors it |
| `AdminPanel.Panel.HandleSubmit` | components/AdminPanel.tsx:36-49 | reports the overwritten or appended list, then nothing is in edit and the form is blank |
| `AdminPanel.Panel.HandleDelete` | components/AdminPanel.tsx:55-60 | a confirmed delete reports the list without the row, with the edit state aligned and the form blanked only when the edit ends; an unconfirmed one changes nothing |
| `AdminPanel.Panel.HandleCancelEdit` | components/AdminPanel.tsx:62-65 | nothing is in edit and the form is blank |

## Left out

- The Firestore and Storage calls (`getDocs`, `addDoc`, `updateDoc`, `deleteDoc`, `deleteObject`, `ref`, `serverTimestamp`) are foreign library calls; their results are outcome parameters.
- lib/firebaseClient.tsx, lib/supabaseClient.tsx and lib/apiClient.ts are configuration parsing and HTTP wrappers with nothing to verify beyond the remote service; only whether `db` and `storage` exist is kept (`hasDb`, `hasStorage`).
- Timestamps are opaque strings: the `Timestamp.toDate().toISOString()` conversion is done by the store side of the model, and the several `new Date()` readings of one handler are one `now` parameter.
- Portfolio.DisplayUrl: `new Date(updated_at).getTime()` is a parameter `getTime` returning an integer; an invalid date (which JavaScript renders as `NaN`) and values of 10^21 or more (rendered in exponent form) are not modelled.
- Strings.ToLower: lower-cases the ASCII letters only; JavaScript's `toLowerCase` also folds other Unicode letters.
- The carousel's drag, touch and auto-scroll handlers (components/PortfolioSection.tsx:45-115) and the team carousel are floating-point scroll arithmetic on DOM refs; the React `key` of each card is not modelled.
- components/SparklesBackground.tsx (random particles) and the markup-only components (Hero, Benefits, About, Services, Team, Contact, Footer, Header, LoginPage, LoginModal, AdminDashboard).
- `alert` and `console` output is returned as the alert text only; `sessionStorage` is the field `sessionAdmin`; an assignment to `window.location.hash` is modelled as the route that the `hashchange` listener then sets.
- The handlers are asynchronous; each is modelled as one atomic step, so the stale `projects` closure read by `updateProject` (App.tsx:137) is taken to be the current list.
- The admin password check is modelled as string equality only; nothing about its security.
- AdminPanel as wired: pages/AdminDashboard.tsx:52-57 passes `onAddProject`, `onUpdateProject` and `onDeleteProject` but neither `isOpen` nor `onProjectsChange`, so the panel renders nothing in the running app. The model takes the panel's declared props and assumes the parent stores each list reported through `onProjectsChange` and passes it back as `projects`.
- AdminPanel.Panel.HandleDelete: uses the aligned edit state of `EditingAfterDelete` (see Findings) rather than leaving the edit state untouched as the source does.
- AdminPanel.SubmittedList: requires the edit index to be at most the length of the list. With `handleDelete` as written, the index passes the end once the number of deletes exceeds the number of rows after the edited one plus one, e.g. the last row in edit and any two deletes. JavaScript then writes the form there and leaves holes (`undefined` rows) in between, which a list of items cannot hold.
- AdminPanel.Panel.HandleSubmit: requires the edit index to be inside the list, which the class invariant keeps under the aligned delete. The append for an index equal to the length is modelled by `SubmittedList` only.
- The browser's `required` validation on the three form inputs is not modelled: a submit with empty fields is accepted.

## Findings

| source | as written | input that shows it | evidently intended | confidence | as-written member | corrected member |
|---|---|---|---|---|---|---|
| components/AdminPanel.tsx:55-60 | `handleDelete` filters the list but leaves `editingProject`, with its row index, as it was | rows [a, b, c]; edit row 1 (b); delete row 0; submit the unchanged form: the list becomes [b, b], so c is overwritten and b duplicated | the submit updates the row that was chosen for editing, giving [b, c]: deleting the edited row ends the edit and deleting a row above it moves the index up | medium, not executed | `AdminPanel.StaleEditIndexOverwritesWrongRow` | `AdminPanel.EditingAfterDeleteKeepsTarget` |
| components/AdminPanel.tsx:55-60 | deleting the row that is in edit leaves `editingProject` and its index, now equal to the list's length | rows [a, b, c]; edit row 2 (c); delete row 2; submit the unchanged form: the list becomes [a, b, c] again, so the deleted row comes back | deleting the edited row ends the edit, so the row stays deleted | medium, not executed | `AdminPanel.StaleEditIndexRestoresDeletedRow` | `AdminPanel.EditingAfterDeleteKeepsTarget` |
