# Bookmark dashboard: live-update reconciler, request gate and form handlers

This project models the decision logic of a personal bookmark manager's web
front end. Signed-in users keep a list of bookmarks. Each open page listens for
`bookmark_changes` broadcasts and folds them into the list it shows. A request
gate upgrades plain-HTTP requests and redirects between the sign-in page (`/`)
and the dashboard (`/dashboard`).

- `Types` holds the values: a `Bookmark` row, the broadcast `ChangePayload`
  (its `kind` is the raw type string, and either row may be missing), and the
  requests a component sends to the backend.
- `Reconciler` holds the broadcast handler `Apply`. The dashboard and the
  stand-alone list install the same decision logic, line for line (only the
  list's logging differs, and it reads the user id from a prop), so one
  function models both. The module also holds the lemmas about `Apply`.
- `Gate` holds the request gate `Middleware`. It is a pure function of the
  forwarded-protocol header, the auth lookup's answer (a parameter) and the URL.
- `Dashboard`, `List` and `Form` are classes. Their fields are the components'
  state cells. Their methods are the handlers that overwrite those cells. The
  outcome of each awaited backend call is a parameter: the insert's error flag,
  or the user returned by the auth lookup. The ghost field `sent` logs each
  request sent. Each entry also records whether the loading indicator was on
  while that request was awaited.

Behaviour worth knowing:

- INSERT is not deduplicated. The handler prepends unconditionally, so the
  same owned INSERT delivered twice leaves two entries with its id
  (`InsertTwiceDuplicates`). Every other payload is idempotent
  (`ApplyIdempotentExceptInsert`).
- UPDATE replaces every entry with the record's id, and DELETE removes every
  such entry.
- The two save paths differ. The dashboard clears its fields only when the
  insert reports no error. The stand-alone form clears them whenever a user was
  found, without looking at the insert's result.

## Model

| member | source | states |
|---|---|---|
| Reconciler.WithoutId | frontend/src/components/DashboardClient.tsx:39-41 | the result holds exactly the bookmarks of the list whose id differs, and it is shorter by the number of entries with that id |
| Reconciler.ReplaceId | frontend/src/components/DashboardClient.tsx:44-48 | same length; each position holds the record if that entry's id matches, and the old entry otherwise |
| Reconciler.Apply | frontend/src/components/DashboardClient.tsx:31-51 | the handler never surfaces a bookmark that was not on screen unless it belongs to the user; the list grows by at most one entry, and only for an owned INSERT; it shrinks only for a DELETE carrying an old record |
| Reconciler.InsertOwnedPrepends | frontend/src/components/DashboardClient.tsx:34-37 | an owned INSERT yields the record followed by the old list: one entry longer, with the old list as the tail |
| Reconciler.InsertTwiceDuplicates | frontend/src/components/DashboardClient.tsx:36 | an owned INSERT delivered twice adds two entries with its id, so INSERT is not idempotent |
| Reconciler.ForeignRecordIgnored | frontend/src/components/DashboardClient.tsx:34-49 | an INSERT or UPDATE whose record belongs to another user leaves the list unchanged |
| Reconciler.MalformedIgnored | frontend/src/components/DashboardClient.tsx:34-50 | an unknown type, an INSERT or UPDATE without a record, and a DELETE without an old record change nothing |
| Reconciler.DeleteRemovesEveryMatch | frontend/src/components/DashboardClient.tsx:38-41 | a DELETE removes every entry with the old record's id and keeps every other entry, whoever the owner is; a second delivery changes nothing |
| Reconciler.WithoutIdIdempotent | frontend/src/components/DashboardClient.tsx:39-41 | filtering an id out twice equals filtering it out once |
| Reconciler.WithoutIdConcat | frontend/src/components/DashboardClient.tsx:39-41 | filtering distributes over concatenation, so the surviving entries keep their relative order |
| Reconciler.WithoutIdAbsent | frontend/src/components/DashboardClient.tsx:39-41 | filtering an id that is not on screen returns the list unchanged |
| Reconciler.ReplaceIdIdempotent | frontend/src/components/DashboardClient.tsx:44-48 | replacing by the same record twice equals replacing once |
| Reconciler.ReplaceIdAbsent | frontend/src/components/DashboardClient.tsx:44-48 | replacing an id that is not on screen returns the list unchanged |
| Reconciler.UpdateOwnedReplacesInPlace | frontend/src/components/DashboardClient.tsx:42-48 | an owned UPDATE keeps length and positions, replaces exactly the matching entries, is idempotent, and ignores an id that is not on screen |
| Reconciler.ApplyIdempotentExceptInsert | frontend/src/components/DashboardClient.tsx:31-51 | every payload other than an owned INSERT gives the same list when delivered twice as when delivered once |
| Reconciler.ApplyAllKeepsOwnership | frontend/src/components/BookmarkList.tsx:35-59 | after any run of broadcasts, every bookmark on screen was there before or belongs to the user, so a list holding only the user's bookmarks keeps that property |
| Gate.Middleware | frontend/src/middleware.ts:4-55 | the HTTPS redirect points at the request URL with only the protocol set to https; an auth redirect points at it with only the pathname set to `/` or `/dashboard` |
| Gate.HttpsUpgradeFirst | frontend/src/middleware.ts:6-11 | a 301 is answered exactly when the forwarded protocol is "http"; the answer is the same whoever the user is and whatever the path |
| Gate.SignedOutLeavesDashboard | frontend/src/middleware.ts:42-46 | a redirect to `/` happens exactly for a non-http request with no user and a path starting with `/dashboard` |
| Gate.SignedInSkipsHome | frontend/src/middleware.ts:48-52 | a redirect to `/dashboard` happens exactly for a non-http request with a user and the path exactly `/` |
| Gate.AuthRedirectsExclusive | frontend/src/middleware.ts:42-54 | no protected path is `/`, so the two auth redirects never both apply; a request passes through exactly when none of the three redirects applies |
| Gate.RedirectsSettle | frontend/src/middleware.ts:6-52 | with the same user, following the gate's redirects reaches a request that passes through within two hops |
| Dashboard.DashboardClient.constructor | frontend/src/components/DashboardClient.tsx:17-22 | the list starts as the initial bookmarks, or empty when there are none; fields empty, not loading, modal closed |
| Dashboard.DashboardClient.OnBroadcast | frontend/src/components/DashboardClient.tsx:31-51 | the list becomes `Apply` of the payload and nothing else changes |
| Dashboard.DashboardClient.EditTitle | frontend/src/components/DashboardClient.tsx:179 | the title field takes the typed text |
| Dashboard.DashboardClient.EditUrl | frontend/src/components/DashboardClient.tsx:189 | the URL field takes the typed text |
| Dashboard.DashboardClient.HandleSave | frontend/src/components/DashboardClient.tsx:66-82 | with an empty title or URL nothing changes and nothing is sent; otherwise one insert is sent while loading, the fields are cleared only when it reports no error, and loading ends false |
| Dashboard.DashboardClient.HandleDelete | frontend/src/components/DashboardClient.tsx:84-89 | the modal is shown for the given id |
| Dashboard.DashboardClient.ConfirmDelete | frontend/src/components/DashboardClient.tsx:91-97 | with no id (or an empty one) nothing changes; otherwise one delete for that id is sent and the modal closes |
| Dashboard.DashboardClient.CancelDelete | frontend/src/components/DashboardClient.tsx:99-101 | the modal is hidden with no id |
| List.BookmarkList.constructor | frontend/src/components/BookmarkList.tsx:15-22 | the list starts as the initial bookmarks |
| List.BookmarkList.OnBroadcast | frontend/src/components/BookmarkList.tsx:35-59 | the list becomes `Apply` of the payload, the same function the dashboard uses |
| List.BookmarkList.ReceiveInitialBookmarks | frontend/src/components/BookmarkList.tsx:24-26 | a new prop resets the list to exactly that array, discarding what earlier broadcasts did |
| Form.BookmarkForm.constructor | frontend/src/components/BookmarkForm.tsx:6-9 | fields empty, not loading |
| Form.BookmarkForm.EditTitle | frontend/src/components/BookmarkForm.tsx:53 | the title field takes the typed text |
| Form.BookmarkForm.EditUrl | frontend/src/components/BookmarkForm.tsx:70 | the URL field takes the typed text |
| Form.BookmarkForm.HandleSubmit | frontend/src/components/BookmarkForm.tsx:12-34 | with an empty title or URL nothing changes; otherwise the auth lookup is sent while loading; with a user one insert follows while loading and the fields are cleared whatever the insert returned; without a user no insert is sent and the fields are kept; loading ends false |

## Left out

- Backend calls are not modelled: the broadcast channel and its subscription, the table insert and delete, the auth lookup, sign-out and OAuth sign-in. Their outcomes are parameters, and the requests sent are logged in `sent`.
- Subscription set-up and teardown on mount and unmount are left out. They are framework lifecycle, and delivery order is asynchronous.
- Each handler runs atomically in the model. The real handlers await the backend, so other events can interleave during the await: typing, broadcasts, a second click while the button is disabled. That interleaving is not modelled.
- A broadcast that arrives before the initial snapshot, or during a reset from props, is concurrency. It is not modelled.
- The middleware's cookie plumbing and its response object are left out. They are request and response I/O.
- The `config.matcher` path filter is left out. Its meaning depends on the framework's routing.
- The status code of the auth redirects is the framework's default and is not visible in the code. `Gate.Response.Redirect` therefore carries no status.
- The URL is reduced to protocol, host, pathname and search. Setting the protocol stores the string "https" as written; URL normalisation is not modelled.
- Logging, alerts, router navigation after sign-out, the sign-out handler, and all rendering are left out.
- The sign-in page, the bookmark card, the layout and the theme components are not part of this model. They are markup, a delete call with date formatting, and cookie writes.
