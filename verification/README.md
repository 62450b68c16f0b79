# Admin dashboard session and record store, in Dafny

This project models the controller logic of a React admin dashboard that tracks
inventory ("equipos") and users. All of that logic lives in the event handlers of
the `App` component in `src/App.js`, and it has two parts:

- **Session gate.** The simulated login accepts exactly one credential pair,
  `admin` / `admin`. Logout resets the session flags and the view. A load effect
  fills both collections with fixed sample data, and it runs only when the
  session becomes authenticated.
- **In-memory record store.** There are two parallel collections, equipment and
  users, and each has the same operations:
  - seeding: the equipment is numbered by position (`equip-0` … `equip-9`), and
    the three sample users carry the literal ids `user-001` … `user-003`;
  - a save that updates in place by id when the record has a truthy id, and
    otherwise appends the record under a clock-made id (`equip-${Date.now()}`);
  - a confirmed delete that filters by id;
  - the view/edit/add modal that save and delete act on.

Each handler is a pure function from the old state to the new one. The models
leave out React's `setState`, the artificial delays and the DOM notifications.

Files:

- `decimal.dfy`, module `Decimal`. Decimal rendering of naturals, as a template
  literal renders an index or a timestamp. It is proved injective through a
  parse round trip, and it never yields a zero-padded numeral.
- `records.dfy`, module `Records`. Records are `Record<F>(id: Option<string>, fields: F)`.
  The module also defines the field sets of equipment and users, JavaScript
  truthiness of an id, and the well-formedness predicates (every id truthy, no
  id twice).
- `store.dfy`, module `Store`. Update-by-id (`map`), insert (`[...rs, x]`), save
  and delete-by-id (`filter`), each with its properties.
- `seed.dfy`, module `Seed`. The ten-item initial equipment data, the three sample
  users, and the positional numbering.
- `modals.dfy`, module `Modals`. Modal open/close and the record a form submit builds.
- `app.dfy`, module `App`. The application state, the handlers, the event type,
  `Step` (a handler followed by the load effect) and `Run` (a sequence of events).
- `app_properties.dfy`, module `AppProperties`. Whole-step and whole-run
  properties, including the invariant that the collections stay consistent.

Modelling choices:

- An object's `id` property is `Option<string>`. The save handler's test
  `if (item.id)` is JavaScript truthiness: a missing id and the empty string are
  both falsy. `Truthy` captures this, so a record whose id is `""` takes the
  insert path.
- `Date.now()` becomes a parameter `now: nat` of the submit event. The id it
  makes is `prefix + Show(now)`. Nothing in the source guarantees that this id
  is unused, so the consistency invariant assumes it (`ClockFresh`), and
  `Store.InsertStaleIdDuplicates` shows what happens without that assumption.
- The confirmation box becomes a boolean `confirmed` on the delete event.
- React's effect with dependencies `[isAuthenticated, authToken]` is `App.RunEffect`.
  It runs after a handler when either dependency changed, and it fetches only
  when the session is authenticated.
- `handleLogout` (src/App.js:156-161) leaves `users` and `equipment` as they are.
  `AppProperties.LogoutKeepsRecords` shows both collections kept by a logout
  from every signed-in state.
- The screen offers the login form only while signed out (src/App.js:1037-1038).
  It offers the navigation, the tables and both modals only while signed in
  (src/App.js:908-1036). `App.Enabled` states this, and `App.Run` ignores any
  event that fails it. `App.Enabled` looks only at the session flag, so it is
  coarser than the screen: it also admits, for example, navigating to the login
  view while signed in, or opening the add modal on a stored record. Runs
  therefore range over a superset of the states the dashboard can reach, and
  every invariant proved for all runs also holds for the reachable states.

## Model

| member | source | states |
|---|---|---|
| Decimal.Show | src/App.js:101 | the rendering of an index is a non-empty digit string with no leading zero unless the index is 0 |
| Decimal.ParseShow | src/App.js:101 | reading a rendered index back as a decimal gives the index: the round trip of the `${index}` rendering |
| Decimal.ShowInjective | src/App.js:101 | two indices render alike exactly when they are equal |
| Decimal.PrefixedShowInjective | src/App.js:307 | `prefix${a}` and `prefix${b}` coincide exactly when a = b |
| Decimal.ShowNeverPadded | src/App.js:207 | `user-${n}` never equals a user id whose numeral is zero-padded, such as `user-001` |
| Records.TaggedIdInjective | src/App.js:101 | the tagged ids `equip-${i}` are distinct for distinct i |
| Store.Replace | src/App.js:303-304 | update path: same length; every record whose id equals the item's id becomes the item; every other record is unchanged in its position; the id column is unchanged |
| Store.Insert | src/App.js:306-308 | insert path: exactly one record appended; the prefix is unchanged; the new record has the submitted fields and the fresh id |
| Store.Save | src/App.js:303-310 | a truthy id updates in place with the length unchanged; any other id (missing or empty) appends the record under the fresh id |
| Store.Remove | src/App.js:346 | delete: never longer; no survivor carries the id; every survivor comes from the input; every record without the id survives |
| Store.ReplaceAbsent | src/App.js:304 | updating with an id no record carries leaves the collection unchanged |
| Store.ReplaceUnique | src/App.js:204 | with unique ids, an update rewrites exactly the one position carrying the id |
| Store.ReplaceWellFormed | src/App.js:304 | an update preserves truthy and unique ids |
| Store.InsertWellFormed | src/App.js:307-308 | an insert preserves truthy and unique ids, provided the fresh id is non-empty and unused |
| Store.InsertStaleIdDuplicates | src/App.js:307-308 | if the clock-made id is already in use, the insert produces a duplicate id |
| Store.RemoveAppend | src/App.js:346 | filtering distributes over concatenation, so survivors keep their relative order |
| Store.RemoveAbsent | src/App.js:346 | deleting an id no record carries is the identity |
| Store.RemoveUnique | src/App.js:246 | with unique ids, deleting a stored id removes exactly that one record, so the length drops by one |
| Store.RemoveLength | src/App.js:246 | an absent id leaves the collection unchanged; with unique ids, a present id shrinks it by exactly one |
| Store.RemoveWellFormed | src/App.js:246 | a delete preserves truthy and unique ids |
| Seed.EnumerateWellFormed | src/App.js:101 | positional numbering keeps length and fields, gives record i the id `prefix${i}`, and yields truthy, pairwise distinct ids |
| Seed.SeedEquipmentShape | src/App.js:4-15 | the seeded equipment has exactly ten records; record i has the fields of data entry i and the id `equip-${i}`; ids are distinct although entries 8 and 9 share SKU EQP010 |
| Seed.SeedUsersWellFormed | src/App.js:93-97 | the three seeded users have truthy, distinct ids |
| Seed.FreshEquipmentIdVersusSeed | src/App.js:307 | `equip-${now}` collides with a seeded equipment id exactly when now < 10 |
| Seed.FreshUserIdAvoidsSeed | src/App.js:207 | `user-${now}` never collides with a seeded user id |
| Modals.ReopenForEdit | src/App.js:856-867 | the view modal's "Edit" button reopens the same record in edit mode; in any other state nothing changes |
| Modals.Submitted | src/App.js:787-790 | a submit is possible exactly from an open edit or add modal; the submitted record has the form's fields and the shown record's id (none if there is none) |
| Modals.AddSubmitHasNoId | src/App.js:498 | the add modal starts from an id-less record, so its submit is id-less and takes the insert path |
| Modals.EditSubmitKeepsId | src/App.js:789 | the edit modal submits the edited fields under the record's own id |
| App.Login | src/App.js:139-148 | the accepted pair authenticates and shows the dashboard with no error; any other pair leaves the session flag and view unchanged and sets "Credenciales incorrectas."; the error is cleared exactly when the pair is accepted; the data is untouched |
| App.Logout | src/App.js:156-161 | always unauthenticated, null token and login view; error and collections untouched |
| App.FetchData | src/App.js:65-101 | the load clears the error, sets users to the three sample users and equipment to the seeded ten, and touches nothing else (session flags, view and modals are kept) |
| App.RunEffect | src/App.js:113-116 | when signed out, or when neither dependency changed, the effect does nothing; when signed in and either the session flag or the token changed, it loads the data, so a token change inside a session also reloads |
| App.SaveEquipment | src/App.js:303-311 | a truthy id keeps the length, turns every record carrying that id into the item and leaves every other record in its place; an id-less item keeps the list as its prefix and appends one record with the submitted fields and id `equip-${now}`; the error clears, the equipment modal closes, and the users are untouched |
| App.SaveUser | src/App.js:203-211 | the same for users: in-place update of every user carrying a truthy id, otherwise the users kept as a prefix plus one appended user with the submitted fields and id `user-${now}` |
| App.DeleteEquipment | src/App.js:333-360 | cancel changes nothing; confirm is the filter: no record with the id is left, every survivor comes from the list, every record without the id survives, and the result is `Store.Remove`, which keeps survivors in order; the modal closes |
| App.DeleteUser | src/App.js:233-260 | the same filter over users: no user with the id is left, every user without it survives, and the result is `Store.Remove` of the users; the modal closes |
| AppProperties.LoginGate | src/App.js:139-148 | from a signed-out state, login authenticates exactly for admin/admin and then loads the seed data; any other pair changes only the error message |
| AppProperties.LogoutResets | src/App.js:156-161 | a logout step ends the session on the login view with a null token and does not modify equipment or users |
| AppProperties.LoadOnlyWhenAuthenticated | src/App.js:113-115 | the load effect changes a state only on a login step that ends authenticated, and then it loads exactly the seed data |
| AppProperties.CancelledDeleteIsIdentity | src/App.js:258-260 | cancelling either delete confirmation leaves the whole state unchanged |
| AppProperties.ConfirmedEquipmentDelete | src/App.js:346-348 | a confirmed delete filters the id out and closes the modal; a present id in a consistent state shrinks the list by one; an absent id leaves it unchanged |
| AppProperties.ConfirmedUserDelete | src/App.js:246-248 | the same for users |
| AppProperties.AddEquipmentFlow | src/App.js:498 | "add" then submit appends exactly one record, with the form's fields and id `equip-${now}`, and closes the modal |
| AppProperties.AddUserFlow | src/App.js:406 | "add user" then submit appends exactly one user, with the form's fields and id `user-${now}` |
| AppProperties.EditEquipmentFlow | src/App.js:538 | editing stored record k and submitting rewrites record k in place under its own id; every other record and the length are unchanged |
| AppProperties.EditUserFlow | src/App.js:444 | the same for users |
| AppProperties.SaveWellFormed | src/App.js:303-308 | a save preserves truthy and unique ids, given an unused fresh id |
| AppProperties.StepConsistent | src/App.js:176-361 | every event step keeps both collections consistent, given an unused clock-made id on a submit that inserts; updates need no clock assumption |
| AppProperties.RunConsistent | src/App.js:176-361 | every run of the actions the screen offers, with fresh clock readings on inserts, preserves consistency |
| AppProperties.ReachableConsistent | src/App.js:23-48 | every state reachable from the mounted initial state, with fresh clock readings on inserts, is consistent |
| AppProperties.SignedOutRunKeepsData | src/App.js:1037-1038 | while signed out only the login form is offered, so until a login with admin/admin the session stays closed and neither collection changes |
| AppProperties.EmptyUntilLogin | src/App.js:113-115 | from mounting, both collections stay empty until the first login with the accepted pair |
| AppProperties.ViewEditEquipmentFlow | src/App.js:856-862 | viewing stored record k, pressing "Edit" and submitting reopens k for editing, then rewrites record k in place under its own id; every other record is unchanged |
| AppProperties.ViewEditUserFlow | src/App.js:728-739 | the same for users |
| AppProperties.LogoutKeepsRecords | src/App.js:156-161 | from every signed-in state, a logout action ends signed out on the login view and keeps both collections exactly as they were |
| AppProperties.LoginLogoutKeepsSeed | src/App.js:156-161 | a concrete run: after an admin login and a logout, the session is closed but the ten equipment records and three users are still held |

## Left out

- The DOM notification box `showMessage` and the DOM confirmation box: these are
  user-interface side effects. The confirmation is the boolean `confirmed` of a
  delete event.
- The `setTimeout` delays, `await` and the `isLoading` flag: they affect timing
  only. Each handler is one atomic step, and the load writes users and equipment
  in one step.
- The `catch` branches of save, delete and the load: nothing in those simulated
  code paths throws, so they never run, and their error messages are not
  modelled. The login `catch` is modelled: every rejected pair throws
  (src/App.js:144), and the catch sets the error that `App.Login` records as
  "Credenciales incorrectas.".
- Stale closures and interleaving of concurrent handlers. The handlers read the
  collection captured at render time, which only matters when they overlap.
  This is concurrency, not sequential logic.
- `Date.now()`: it is nondeterministic, so the clock reading is an event
  parameter. `Decimal.Show` renders every natural in plain decimal. JavaScript
  switches to exponent notation from 10^21 upward, far beyond any index or
  millisecond timestamp.
- The commented-out `fetch` calls to the backend API: they are dead code.
- The JSX views, the navigation markup and the `required` form hints: these are
  presentation. Navigation is kept only as the `Navigated` event that sets the
  view, and the rendering only as `App.Enabled`, which says which events the
  screen offers.
- Extra properties a JavaScript object may carry beyond the modelled fields.
- App.Enabled: gates events on the session flag alone, not on which navigation
  targets and which modal buttons the current screen renders, because an
  over-approximation keeps the run invariants sound for every reachable state.
- `src/index.js` is not part of this model; it only mounts the component.
- AppProperties.StepConsistent: on a submit that inserts, it assumes the clock
  reading makes an unused id (`ClockFresh`), because the source makes no such
  guarantee.
