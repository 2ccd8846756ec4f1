# Event manager: permissions seed and client state, in Dafny

This project models the core of an event-management web application. The
server's permission seed script upserts a fixed catalog of six permissions
(`event.create`, `event.update.own`, `event.update.all`, `event.delete.own`,
`event.delete.all`, `event.rsvp`). It then resets the permission set of every
superAdmin and admin to the whole table, and resets every plain user's set to
the four "user" grants. The client parts modelled are:

- the event list's permission-dependent buttons, and its list updates after a
  delete or an RSVP;
- the browser-local event store (`useEvents`): mock seeding, add, update,
  delete, RSVP, each mirrored to local storage;
- the events and notification context providers;
- the home page's search and category filter, and the my-events page;
- the user provider: session status, login, registration, logout and redirect
  normalisation.

The models are written as follows:

- Stateful code (React state, the in-memory database) is a Dafny `class`.
  Each handler is a `method` whose `ensures` gives the new state as a function
  of the old one. The properties are then proved about those functions as
  lemmas.
- A server call is a parameter. A failed request is `None` (or `false` for a
  delete).
- The URL parser is a parameter. `uuidv4` ids and the database's id generator
  are parameters or a counter.
- Browser storage is a ghost copy.

Modules:

| file | module | models |
|---|---|---|
| wrappers.dfy | Wrappers | `Option` |
| seqs.dfy | Seqs | `Array.prototype.filter` and its laws; the replace-by-key `map` both lists use |
| events.dfy | Events | the event record and the two listing endpoints; remove, replace and RSVP by id |
| seed.dfy | Seed | `server/src/seed.ts` |
| event_list.dfy | EventList | `client/src/components/EventList.tsx` |
| use_events.dfy | UseEvents | `client/src/contexts/hooks/useEvents.ts` |
| events_provider.dfy | EventsProvider | `client/src/contexts/EventsProviders.tsx` |
| notifications.dfy | Notifications | `client/src/contexts/NotificationProvider.tsx` |
| filters.dfy | Filters | `client/src/app/page.tsx`, `client/src/app/my-events/page.tsx` |
| user_provider.dfy | UserProvider | `client/src/contexts/UserProvider.tsx` |

## Model

| member | source | states |
|---|---|---|
| Events.RemoveById | client/src/contexts/hooks/useEvents.ts:82-84 | exactly the events with another id remain (each with its old multiplicity), in their old order |
| Events.ReplaceById | client/src/contexts/hooks/useEvents.ts:72-76 | same length; positions with the id hold the new event, every other position is unchanged |
| Events.IncrementRsvp | client/src/contexts/hooks/useEvents.ts:90-94 | same length; matching events get `rsvpCount + 1` with every other field kept; other events unchanged |
| Events.AbsentIdIsNoOp | client/src/contexts/hooks/useEvents.ts:72-88 | update, RSVP and delete of an id not in the list leave the list unchanged |
| Events.ReplaceLeavesOnlyNew | client/src/contexts/hooks/useEvents.ts:72-76 | after an update, every event with that id is the new one, and the new one is present if the id was |
| Events.RemoveAfterReplace | client/src/contexts/hooks/useEvents.ts:72-88 | deleting an id after updating it gives the same list as deleting it directly |
| Events.RsvpAddsExactly | client/src/contexts/hooks/useEvents.ts:90-98 | n RSVPs to one id add exactly n to each matching counter and change nothing else; there is no duplicate guard |
| Events.RsvpMonotone | client/src/contexts/hooks/useEvents.ts:90-94 | an RSVP never lowers a counter and keeps counters non-negative |
| Seed.Upsert | server/src/seed.ts:16-22 | afterwards the name exists; an existing name leaves the database unchanged; otherwise exactly one row with a fresh id is appended |
| Seed.UpsertAll | server/src/seed.ts:16-22 | the upsert loop: one upsert per name, in catalog order (its properties are Seed.UpsertAllSpec and Seed.UpsertAllPresent) |
| Seed.UpsertPreserves | server/src/seed.ts:16-22 | an upsert keeps names and ids unique and leaves roles and users' sets alone |
| Seed.UpsertAllSpec | server/src/seed.ts:7-22 | after the upsert loop every catalog name is present exactly once, earlier rows are kept, and new rows only carry catalog names |
| Seed.UpsertAllPresent | server/src/seed.ts:16-22 | when every name is already present, the upsert loop changes nothing |
| Seed.PermissionMap | server/src/seed.ts:25-32 | the map's keys are exactly the stored names |
| Seed.PermissionMapSpec | server/src/seed.ts:25-32 | with unique names, each stored name maps to that row's id |
| Seed.BuildPermissionMap | server/src/seed.ts:26-32 | the `reduce` loop builds exactly `PermissionMap` of the table |
| Seed.PresentIds | server/src/seed.ts:71-76 | an id is in the list iff it is the map's id of one of the names; missing names are dropped |
| Seed.UserIdsExact | server/src/seed.ts:71-76 | the filtered "user" ids are exactly the ids of the rows named create, update.own, delete.own, rsvp, and no other row's id |
| Seed.Overwrite | server/src/seed.ts:39-47 | one `set` update per listed user: each listed user's set becomes the ids, every other user keeps theirs |
| Seed.Reassign | server/src/seed.ts:34-87 | the relation the three role loops leave: whole table for superAdmin and admin, the user grants for user, unchanged otherwise |
| Seed.SeedSpec | server/src/seed.ts:6-87 | the whole run as a function of the database: upsert the catalog, build the map, reassign by role (its properties are Seed.SeedCatalog, Seed.SeedGrants, Seed.SeedIdempotent) |
| Seed.RoleLoopsReassign | server/src/seed.ts:35-87 | the three role loops run in sequence give each user the set that its role selects |
| Seed.SeedCatalog | server/src/seed.ts:7-22 | after a run the table keeps every earlier row, holds each catalog name once, gains only catalog rows, and roles are unchanged |
| Seed.SeedGrants | server/src/seed.ts:34-87 | superAdmins and admins get exactly the whole table; users get exactly the four user grants, never update.all or delete.all; other roles keep their set |
| Seed.SeedGrantOf | server/src/seed.ts:34-87 | after a run, a user's set is the one its role selects from the upserted table, whose names and ids are unique |
| Seed.ReassignIdempotent | server/src/seed.ts:78-87 | reassigning a second time with the same sets changes nothing, because each loop replaces a set rather than adding to it |
| Seed.SeedIdempotent | server/src/seed.ts:6-87 | running the seed twice yields the same table and per-user sets as running it once |
| Seed.Store.constructor | server/src/seed.ts:4 | the store holds the given database |
| Seed.Store.UpsertPermission | server/src/seed.ts:17-21 | the store's new state is the upsert of the old state |
| Seed.Store.UpsertCatalog | server/src/seed.ts:16-22 | the store's new state is the upsert loop over the six catalog names applied to the old state |
| Seed.Store.UsersWithRole | server/src/seed.ts:35-37 | returns each user with that role exactly once and no other user |
| Seed.Store.SetPermissionsOf | server/src/seed.ts:39-47 | each listed user's set becomes exactly the ids (replace, not union); other users keep theirs |
| Seed.Store.Seed | server/src/seed.ts:6-90 | the script's final state equals the seed specification applied to the initial state |
| EventList.IsOwnEvent | client/src/components/EventList.tsx:22 | `isOwnEvent`: a user is signed in and the event's owner id is theirs |
| EventList.CanEditAll | client/src/components/EventList.tsx:23 | `canEditAll`: admin, or granted "event.update.all" |
| EventList.CanDeleteAll | client/src/components/EventList.tsx:24 | `canDeleteAll`: admin, or granted "event.delete.all" |
| EventList.ShowsEdit | client/src/components/EventList.tsx:141-142 | the Edit button's condition: edit-all, or own event with "event.update.own" |
| EventList.ShowsDelete | client/src/components/EventList.tsx:150-151 | the Delete button's condition: delete-all, or own event with "event.delete.own" |
| EventList.ShowsRsvp | client/src/components/EventList.tsx:159 | the RSVP button's condition: signed in and granted "event.rsvp" |
| EventList.CreateDisabled | client/src/components/EventList.tsx:114 | the Create Event button is disabled with no user, without "event.create", or while loading |
| EventList.OwnershipNeedsUser | client/src/components/EventList.tsx:22 | an event is one's own iff a user is signed in and its owner id is the user's id; signed out, RSVP is hidden and Create is disabled |
| EventList.ButtonsFollowScopeRule | client/src/components/EventList.tsx:141-151 | Edit (Delete) is shown iff admin, or the "all" grant, or owner with the "own" grant |
| EventList.NonOwnerWithoutAllIsDenied | client/src/components/EventList.tsx:141-151 | a non-admin non-owner without an "all" grant sees neither Edit nor Delete |
| EventList.RsvpIgnoresOwnership | client/src/components/EventList.tsx:159 | whether RSVP is shown does not depend on the event |
| EventList.SeededUserActsOnOwnOnly | client/src/components/EventList.tsx:141-159 | a non-admin holding exactly the seeded user grants may edit and delete exactly their own events and may RSVP iff signed in |
| EventList.EventListView.constructor | client/src/components/EventList.tsx:17-18 | the list starts empty and not loading |
| EventList.EventListView.FetchEvents | client/src/components/EventList.tsx:26-43 | asks the user endpoint iff signed in; replaces the list on success, keeps it on failure; loading ends false |
| EventList.EventListView.HandleDelete | client/src/components/EventList.tsx:45-61 | on success the events with the id are removed in order; on failure the list is unchanged |
| EventList.EventListView.HandleRsvp | client/src/components/EventList.tsx:63-81 | on success the events with the id become the server's event; on failure the list is unchanged |
| UseEvents.NewEvent | client/src/contexts/hooks/useEvents.ts:59-64 | the new event has the draft's fields, the fresh id, `isUserCreated` true and no RSVPs |
| UseEvents.MockEvents | client/src/contexts/hooks/useEvents.ts:18-49 | three events, none user-created, all with zero RSVPs and no owner |
| UseEvents.LocalEvents.constructor | client/src/contexts/hooks/useEvents.ts:9 | the list starts empty |
| UseEvents.LocalEvents.Load | client/src/contexts/hooks/useEvents.ts:11-54 | the stored list is loaded if present, otherwise the three mock events are used and stored |
| UseEvents.LocalEvents.AddEvent | client/src/contexts/hooks/useEvents.ts:56-70 | exactly one new event is appended at the end, and storage matches the list |
| UseEvents.LocalEvents.UpdateEvent | client/src/contexts/hooks/useEvents.ts:72-80 | the list becomes the replace-by-id of the old one, and storage matches it |
| UseEvents.LocalEvents.DeleteEvent | client/src/contexts/hooks/useEvents.ts:82-88 | the list becomes the remove-by-id of the old one, and storage matches it |
| UseEvents.LocalEvents.RsvpEvent | client/src/contexts/hooks/useEvents.ts:90-98 | the list becomes the RSVP increment of the old one, and storage matches it |
| UseEvents.CountsStayNonNegative | client/src/contexts/hooks/useEvents.ts:56-98 | non-negative counters stay non-negative under add, delete, RSVP, and update with a non-negative counter |
| EventsProvider.Provider.constructor | client/src/contexts/EventsProviders.tsx:45-46 | the list starts empty and not loading |
| EventsProvider.Provider.FetchEvents | client/src/contexts/EventsProviders.tsx:49-65 | the flag selects the user or the general endpoint; the list is replaced on success and kept on failure; loading ends false |
| EventsProvider.Provider.RsvpEvent | client/src/contexts/EventsProviders.tsx:67-81 | on success the events with the id become the returned event; on failure nothing changes |
| EventsProvider.Provider.DeleteEvent | client/src/contexts/EventsProviders.tsx:83-95 | on success the events with the id are removed in order; on failure nothing changes |
| EventsProvider.ServerRsvpMatchesIncrement | client/src/contexts/EventsProviders.tsx:67-73 | if the server returns the event with one more RSVP, the provider's list equals the local increment |
| Notifications.Unread | client/src/contexts/NotificationProvider.tsx:57-59 | holds exactly the notifications whose status is "unread", each as often as in the list, in list order |
| Notifications.UnreadCount | client/src/contexts/NotificationProvider.tsx:57-59 | at most the list's length; zero iff no notification is unread |
| Notifications.UnreadCountFront | client/src/contexts/NotificationProvider.tsx:57-59 | the count of a list is its head's contribution plus the count of the rest |
| Notifications.UnreadIds | client/src/contexts/NotificationProvider.tsx:96-105 | the ids requested are exactly those of unread notifications, one request per unread notification |
| Notifications.FindById | client/src/contexts/NotificationProvider.tsx:110-112 | the first answer with the id, if any: nothing is found iff no answer has the id, and no earlier answer has it |
| Notifications.Merge | client/src/contexts/NotificationProvider.tsx:108-115 | same length and ids in order; a slot with an answer becomes the first answer with its id; a slot without one is unchanged |
| Notifications.ReplaceById | client/src/contexts/NotificationProvider.tsx:83-87 | same length; slots with the id hold the server's record; others are unchanged |
| Notifications.MarkAllReadLeavesNoneUnread | client/src/contexts/NotificationProvider.tsx:94-119 | if every unread notification got an answer and all answers are "read", the unread count is zero |
| Notifications.MarkReadNeverRaisesUnread | client/src/contexts/NotificationProvider.tsx:77-87 | replacing the slots of any requested id by a "read" reply never raises the unread count |
| Notifications.UnreadSubset | client/src/contexts/NotificationProvider.tsx:77-87 | a list whose unread entries match another's position by position has no more unread entries |
| Notifications.NotificationCenter.constructor | client/src/contexts/NotificationProvider.tsx:52-53 | the list starts empty and not loading |
| Notifications.NotificationCenter.FetchNotifications | client/src/contexts/NotificationProvider.tsx:62-74 | nothing happens without a user; otherwise the list is replaced on success, kept on failure, and loading ends false |
| Notifications.NotificationCenter.MarkAsRead | client/src/contexts/NotificationProvider.tsx:77-91 | on success the notification with the id becomes the server's record; on failure nothing changes |
| Notifications.NotificationCenter.MarkAllAsRead | client/src/contexts/NotificationProvider.tsx:94-119 | requests exactly the unread ids; merges the answers if all succeed, else changes nothing |
| Notifications.NotificationCenter.Receive | client/src/contexts/NotificationProvider.tsx:130-133 | the pushed notification is prepended; the unread count grows by one iff it is unread |
| Filters.LowerChar | client/src/app/page.tsx:15-17 | ASCII upper-case letters move down by 32; other characters are unchanged |
| Filters.Lower | client/src/app/page.tsx:15-17 | same length; each character is lower-cased |
| Filters.Includes | client/src/app/page.tsx:15-17 | `includes`: the term occurs at some position of the string |
| Filters.Matches | client/src/app/page.tsx:14-21 | the filter callback: title match and category match together |
| Filters.FilteredEvents | client/src/app/page.tsx:14-21 | an event is kept iff its lower-cased title contains the lower-cased term and the category is "All" or its own; each kept event as often as in the list, in order |
| Filters.LowerIdempotent | client/src/app/page.tsx:15-17 | lower-casing twice equals lower-casing once |
| Filters.IncludesEmpty | client/src/app/page.tsx:15-17 | every title includes the empty term |
| Filters.EmptySearchShowsAll | client/src/app/page.tsx:14-21 | an empty term with "All" shows the whole list |
| Filters.SearchIgnoresCase | client/src/app/page.tsx:15-17 | terms that lower-case alike give the same result |
| Filters.SearchLowerCasedTerm | client/src/app/page.tsx:15-17 | the lower-cased term gives the same result as the typed one |
| Filters.NoEventsFoundIff | client/src/app/page.tsx:46-47 | "No events found." is shown iff no event passes both tests |
| Filters.UserEvents | client/src/app/my-events/page.tsx:13 | keeps exactly the user-created events, each as often as in the list, in order |
| Filters.AddedEventShows | client/src/app/my-events/page.tsx:13 | an event added by `addEvent` appears at the end of the my-events list |
| Filters.MockEventsNeverShow | client/src/app/my-events/page.tsx:13 | the three mock events never appear on the my-events page |
| Filters.NoEventsCreatedIff | client/src/app/my-events/page.tsx:18-19 | "No events created yet." is shown iff no event is user-created |
| Filters.MyEventsPage.constructor | client/src/app/my-events/page.tsx:11 | no event is being edited and the dialog is closed |
| Filters.MyEventsPage.Edit | client/src/app/my-events/page.tsx:26 | the clicked event is being edited and the dialog is open |
| Filters.MyEventsPage.Close | client/src/app/my-events/page.tsx:35-39 | nothing is being edited and the dialog is closed |
| UserProvider.SlashPrefixed | client/src/contexts/UserProvider.tsx:46-48 | the result starts with "/"; the input is returned as is if it does, else behind one "/" |
| UserProvider.NormalizeRedirectUrlAsWritten | client/src/contexts/UserProvider.tsx:32-50 | missing or empty gives "/"; another origin gives "/"; same origin gives the pathname or "/"; a parse failure gives the slash-prefixed input |
| UserProvider.NormalizeRedirectUrl | client/src/contexts/UserProvider.tsx:32-50 | the corrected normaliser: always a local path; "/" for missing, empty or foreign input; otherwise the source's answer or "/" |
| UserProvider.NormalizeAgreesOnLocalPaths | client/src/contexts/UserProvider.tsx:32-50 | the corrected normaliser agrees with the source's wherever the source returns a local path |
| UserProvider.AsWrittenStartsWithSlash | client/src/contexts/UserProvider.tsx:45-48 | the source's answer starts with "/" whenever the parser's pathnames do |
| UserProvider.AsWrittenAllowsOffSiteRedirect | client/src/contexts/UserProvider.tsx:38-45 | a same-origin URL with pathname "//evil.example" passes through and resolves to another origin; the corrected version gives "/" |
| UserProvider.OrElse | client/src/contexts/UserProvider.tsx:105-107 | a present non-empty value is kept; a missing or empty one falls back |
| UserProvider.UserFromSession | client/src/contexts/UserProvider.tsx:104-122 | id, email default to "", name to "Unknown", role to "user"; name and role are never empty |
| UserProvider.TokenOf | client/src/contexts/UserProvider.tsx:123 | the token is present iff the session's access token is present and non-empty, and then equals it |
| UserProvider.AuthState.constructor | client/src/contexts/UserProvider.tsx:84-97 | user and token come from storage, with an empty stored token read as none; not loading |
| UserProvider.AuthState.OnSessionStatus | client/src/contexts/UserProvider.tsx:99-141 | authenticated: user with defaults, token, stored token and cookie set; unauthenticated: everything cleared; otherwise nothing changes |
| UserProvider.AuthState.PersistUser | client/src/contexts/UserProvider.tsx:143-148 | with a user and a non-empty token, both are stored; otherwise (no user, no token or an empty one) storage is untouched |
| UserProvider.AuthState.Authenticate | client/src/contexts/UserProvider.tsx:155-186 | only status 201 sets user, token and cookie and gives the source's normalisation of the redirect; otherwise nothing changes; loading ends false |
| UserProvider.AuthState.LoginUser | client/src/contexts/UserProvider.tsx:150-187 | only status 201 sets user, token and the `authToken` cookie and navigates to the source's normalised redirect, "/" when none is given or it is on another origin; otherwise user, token and cookie are unchanged; stored user and token are never touched; loading ends false |
| UserProvider.AuthState.RegisterUser | client/src/contexts/UserProvider.tsx:189-230 | only status 201 sets user, token and the `authToken` cookie and navigates to the source's normalised redirect, "/" when none is given or it is on another origin; otherwise user, token and cookie are unchanged; stored user and token are never touched; loading ends false |
| UserProvider.AuthState.GoogleSignIn | client/src/contexts/UserProvider.tsx:232-236 | the callback address is the source's normalisation of the redirect: "/" when none is given, empty or on another origin |
| UserProvider.AuthState.LogoutUser | client/src/contexts/UserProvider.tsx:238-247 | user and token are cleared and the stored user, token and cookie are removed |

## Left out

- Rendering, spinners, the SweetAlert dialogs, console logging and router pushes other than the returned redirect target are not modelled: they are presentation.
- Network I/O (axios, the bearer-token interceptor, the socket transport) is not modelled. Each call's outcome is a parameter, and the socket subscription is the `Receive` method.
- Prisma mechanics (`$disconnect`, `process.exit`, the catch handler) are not modelled. The database is in memory, and fresh ids come from a counter standing for the id generator.
- `uuidv4` is not modelled. Fresh ids are parameters, and nothing assumes they are unique.
- `isAdmin` and `hasPermission` live in an auth hook that is not part of this model. They are inputs: a flag and the set of names for which `hasPermission` answers true.
- Filters.Lower: lower-casing is ASCII only; JavaScript's full Unicode `toLowerCase` is not modelled.
- Date handling and `toLocaleDateString` are not modelled; dates are opaque strings.
- User records keep only id, name, email and role. The session effect's other constant fields (phone, gender, status, photos and the like) are not modelled.
- JSON serialisation is not modelled. Storage holds values, so a stored empty string, which the hook treats as "nothing stored", is `None` in `Load`.
- The intermediate `loading == true` while a request is in flight is not observable in a sequential model. The contracts state only that loading ends false.
- UseEvents.CountsStayNonNegative: an update can lower a counter, because `updateEvent` writes whatever event it is given. Monotonicity is proved for RSVP (Events.RsvpMonotone) and non-negativity for all four operations.
- UserProvider.AuthState.LogoutUser: the call to `signOut` with callback "/" goes to the OAuth library and is not modelled. So is `signIn` in `googleSignIn`.
- UserProvider.AuthState.LoginUser, RegisterUser and GoogleSignIn navigate as the source does, with the as-written normaliser, so they inherit the off-site redirect listed under Findings; the corrected normaliser is modelled beside it, not wired in.
- The error messages taken from failed responses are not modelled.

## Findings

| source | as written | input that shows it | evidently intended | confidence | as-written member | corrected member |
|---|---|---|---|---|---|---|
| client/src/contexts/UserProvider.tsx:45 | a same-origin URL's pathname is returned as the redirect target even when it starts with "//" | `https://app.example//evil.example` on origin `https://app.example`: the URL Standard gives pathname `//evil.example`, and that string resolved against the site has origin `https://evil.example` | only redirects that stay on the current origin | medium, not executed | UserProvider.AsWrittenAllowsOffSiteRedirect | UserProvider.NormalizeRedirectUrl |
