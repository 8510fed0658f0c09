# dandi API-key dashboard — a Dafny model

dandi is a Next.js application whose dashboard lets a signed-in user create,
edit, delete, enable/disable and reveal API keys of the form `dandi-` followed
by 32 letters and digits. The keys live in a hosted Postgres table
(`api_keys`) reached through the Supabase client. Two HTTP routes check a key:
`/api/validate-api-key` and `/api/github-summarizer`. The summarizer route also
fetches a repository's README. A `users` table records Google sign-ins.

This project models that core in Dafny 4:

- the key store (`lib/api-keys.js`) as pure step functions over the table's
  rows, applied in place by the class `ApiKeys.KeyTable`;
- the two routes' status mapping, the GitHub URL parse and the main/master
  README fallback, with `fetch` as an oracle function;
- the users table (`lib/userService.js`) as the class `UserService.UsersTable`;
- the client state: the key-list hook, key masking, the visibility set, the
  dialog's backdrop gesture, the dashboard page's dialog state, toasts and the
  sidebar.

Every store call takes an oracle `fault: Option<string>`. `Some(message)`
means the hosted store reported that failure and wrote nothing. The clock is a
parameter `now`. `Math.random` is the sequence of the 32 indices it would have
produced. `confirm` is a boolean. JavaScript `undefined`/`null` is `None`; a
thrown error is an `Err` or an `Outcome` with its message.

Files: `store.dfy` (Option, Result, truthiness, `.single()`),
`js_numbers.dfy` (`parseInt`, integer `toString`), `key_generator.dfy`,
`api_keys.dfy`, `validate_route.dfy`, `summarizer_route.dfy`,
`user_service.dfy`, `use_api_keys.dfy`, `api_key_formatter.dfy`,
`visibility.dfy`, `api_key_modal.dfy`, `dashboard.dfy`, `notifications.dfy`,
`sidebar.dfy`.

Two consequences of the code worth stating:

- The schema declares `usage_limit INTEGER DEFAULT 1000` with no check
  constraint (lib/api-keys.js:11), and `parseInt(usageLimit) || 1000`
  (lib/api-keys.js:66, 96) stores `"-5"` as -5. `ApiKeys.UsageLimit` keeps
  negative values and promises only that the limit is never 0. A parsed limit
  outside the 32-bit range of `INTEGER` is rejected by the store; the model
  computes that rejection from the data (`ApiKeys.LimitOutOfRange`), checked
  before the NOT NULL and UNIQUE constraints and, on update, before the lookup
  of the id.
- `validateApiKey` asks `.single()` for the active rows with the key
  (lib/api-keys.js:166-171), so with several such rows it would answer invalid.
  Under the table's UNIQUE constraint on `api_key` that cannot happen, and the
  answer is "valid iff an active row holds the key" (`ApiKeys.VerdictTable`).

## Model

| member | source | states |
|---|---|---|
| Store.Single | lib/api-keys.js:171 | `.single()` yields a row exactly when the query matched one row, and that row is among the matches |
| JsNumbers.TrimStart | lib/api-keys.js:66 | the leading white space `parseInt` skips: the result is a suffix, everything dropped is white space, the result does not start with white space |
| JsNumbers.ParseInt | lib/api-keys.js:66 | `parseInt(s)` yields a number only for a non-blank input, and a negative one only after a leading `-` |
| JsNumbers.ToDecimal | src/app/dashboards/page.js:85 | decimal text of a natural number: non-empty digits, no leading zero, whose value is the number |
| JsNumbers.IntToString | src/app/dashboards/page.js:85 | `n.toString()` is non-empty and starts with `-` exactly when `n` is negative |
| JsNumbers.ParseIntToString | src/app/dashboards/page.js:85 | parsing the text of any integer gives the integer back |
| KeyGenerator.AlphabetIsAlphanumeric | lib/api-keys.js:26-27 | the 62-character alphabet is exactly `[A-Za-z0-9]`, each character once, in the listed order |
| KeyGenerator.GenerateApiKey | lib/api-keys.js:25-33 | the loop builds `"dandi-"` plus one alphabet character per draw: 38 characters, prefix, alphanumeric tail |
| KeyGenerator.KeyDeterminesDraw | lib/api-keys.js:28-31 | distinct random draws give distinct keys |
| ApiKeys.UsageLimit | lib/api-keys.js:66 | `parseInt(u)` or 1000: NaN and a parsed 0 (also "00", "-0") become 1000, any other parsed integer is kept; never 0 |
| ApiKeys.UsageLimitRoundTrip | lib/api-keys.js:96 | a non-zero limit written as text is stored back unchanged; "0" becomes 1000 |
| ApiKeys.MapById | lib/api-keys.js:92-98 | `.update(...).eq("id", id)`: rows with that id get the change, every other row is unchanged, length kept |
| ApiKeys.RemoveId | lib/api-keys.js:114 | `.delete().eq("id", id)`: exactly the rows without that id survive |
| ApiKeys.RemoveIdKeepsOrder | lib/api-keys.js:114 | removal distributes over concatenation, so survivors keep their order |
| ApiKeys.RowsOwnedBy | lib/api-keys.js:44-46 | `.eq("user_id", owner)` keeps exactly the owner's rows |
| ApiKeys.SortByCreatedDesc | lib/api-keys.js:38-41 | `.order("created_at", { ascending: false })`: sorted newest first and a permutation of its input |
| ApiKeys.CreateStep | lib/api-keys.js:60-85 | create succeeds iff no fault, a limit that fits `INTEGER`, a name and an unused key; an out-of-range limit fails with the range message; the row gets the given name, description or `""`, permissions or "read", the limit `parseInt(u)`, or 1000 when that is NaN or 0, active, no last use, and is appended; on error nothing changes |
| ApiKeys.Edited | lib/api-keys.js:92-97 | an update writes the given name, description and permissions (an absent one keeps the column) and the limit `parseInt(u)`, or 1000 when that is NaN or 0; id, key, status, timestamps and owner are kept |
| ApiKeys.UpdateStep | lib/api-keys.js:88-109 | a limit outside `INTEGER` fails with the range message; update of a missing id fails with the PGRST116 message; otherwise exactly the row with that id is edited and returned |
| ApiKeys.DeleteStep | lib/api-keys.js:112-123 | after a delete no row has the id, every other row survives, nothing new appears; a fault returns its message |
| ApiKeys.ToggleStep | lib/api-keys.js:126-142 | only `is_active` of the row with that id becomes the given value; missing id fails |
| ApiKeys.ToggleIdempotent | lib/api-keys.js:126-133 | toggling twice to the same status gives the state of one toggle |
| ApiKeys.TouchStep | lib/api-keys.js:145-161 | only `last_used` of the row with that id is set to now; missing id fails |
| ApiKeys.Verdict | lib/api-keys.js:164-191 | a lookup fault gives invalid with its message; otherwise no error; valid iff key data is returned, and then it is an active row holding the key |
| ApiKeys.AtMostOneActiveMatch | lib/api-keys.js:166-171 | with unique keys at most one active row matches |
| ApiKeys.VerdictTable | lib/api-keys.js:164-191 | with unique keys: valid iff no lookup fault and some active row holds the key |
| ApiKeys.ValidateStep | lib/api-keys.js:183-187 | validation returns the verdict; only a valid key's `last_used` is touched, and a failed touch changes nothing and does not alter the verdict |
| ApiKeys.KeyTable.constructor | lib/api-keys.js:6-17 | an empty table, which satisfies the id and UNIQUE `api_key` invariant |
| ApiKeys.KeyTable.GetApiKeys | lib/api-keys.js:36-57 | the listed rows are the selected rows, newest first; with a truthy user id only that user's rows; a fault returns its message |
| ApiKeys.KeyTable.CreateApiKey | lib/api-keys.js:60-85 | applies `CreateStep` with a freshly generated key and keeps id and key uniqueness |
| ApiKeys.KeyTable.UpdateApiKey | lib/api-keys.js:88-109 | applies `UpdateStep` and keeps the table invariant |
| ApiKeys.KeyTable.DeleteApiKey | lib/api-keys.js:112-123 | applies `DeleteStep` and keeps the table invariant |
| ApiKeys.KeyTable.ToggleApiKeyStatus | lib/api-keys.js:126-142 | applies `ToggleStep` and keeps the table invariant |
| ApiKeys.KeyTable.UpdateLastUsed | lib/api-keys.js:145-161 | applies `TouchStep` and keeps the table invariant |
| ApiKeys.KeyTable.ValidateApiKey | lib/api-keys.js:164-191 | answers and updates the table as `ValidateStep` |
| ApiKeys.PrependKeepsUnique | lib/api-keys.js:114 | a row sharing neither id nor key with the survivors keeps them unique in front of them |
| ApiKeys.RemoveIdKeepsUnique | lib/api-keys.js:114 | the rows surviving a delete keep unique ids and unique keys |
| ValidateRoute.PostResponse | src/app/api/validate-api-key/route.js:51-75 | 500 iff the body is not JSON or is `null` (any other JSON value without a string `apiKey` gets 400); 400 "API key is required" iff the key is missing or empty; 200 iff valid; a store fault gives 401 |
| ValidateRoute.GetResponse | src/app/api/validate-api-key/route.js:78-94 | 400 iff the `apiKey` parameter is missing or empty, 200 iff valid, else 401; a store fault gives 401 |
| ValidateRoute.PostStatusTable | src/app/api/validate-api-key/route.js:51-75 | with unique keys, POST answers 200 iff a key is given, the lookup succeeds and an active row holds it |
| ValidateRoute.Post | src/app/api/validate-api-key/route.js:51-75 | answers `PostResponse` of the rows as they were, and touches the table only via validation |
| ValidateRoute.Get | src/app/api/validate-api-key/route.js:78-94 | answers `GetResponse` of the rows as they were, and touches the table only via validation |
| SummarizerRoute.PostResponse | src/app/api/github-summarizer/route.js:51-75 | body parsed first: 500 iff it fails, even with a header; 400 iff the `x-api-key` header is missing or empty; 200 iff valid |
| SummarizerRoute.Post | src/app/api/github-summarizer/route.js:51-75 | answers `PostResponse` and touches the table only via validation |
| SummarizerRoute.Get | src/app/api/github-summarizer/route.js:78-94 | answers exactly as the validation route's GET |
| SummarizerRoute.SegmentLength | src/app/api/github-summarizer/route.js:100 | `[^/]+` followed by `/` or the end: the slash-free run before the first slash |
| SummarizerRoute.ParseGithubUrl | src/app/api/github-summarizer/route.js:99-106 | a parsed URL has the form `https://github.com/<owner>/<repo>` then `/` or the end, with non-empty slash-free parts |
| SummarizerRoute.ParseGithubUrlComplete | src/app/api/github-summarizer/route.js:99-106 | every URL of that form parses, to exactly its owner and repository |
| SummarizerRoute.ParseGithubUrlRejects | src/app/api/github-summarizer/route.js:102-104 | a URL that does not parse has no owner/repository reading |
| SummarizerRoute.GetReadmeContent | src/app/api/github-summarizer/route.js:96-126 | no fetch for a bad URL; main is fetched first and its OK text returned without touching master; otherwise master decides; a network error ends with null |
| UserService.GoogleIdLookup | lib/userService.js:21-25 | with unique Google ids a lookup finds one row exactly when the id is present |
| UserService.Merged | lib/userService.js:36-40 | a returning user keeps the old name/image unless a truthy new one is given; login time is now; id and email kept |
| UserService.UsersTable.constructor | lib/userService.js:21-25 | an empty `users` table, whose Google ids are trivially unique |
| UserService.UsersTable.CreateOrUpdateUser | lib/userService.js:12-78 | missing id or email fails first; a lookup fault fails with "Error fetching user: "; an existing user is merged in place, a new one appended; write faults give the update/create message; the returned user carries the given Google id; ids stay unique |
| UserService.UsersTable.GetUserByGoogleId | lib/userService.js:85-102 | null exactly when no user has the id, else that user; a fault raises "Error fetching user: " |
| UserService.UsersTable.GetUserByEmail | lib/userService.js:109-126 | a user only when exactly one row has the email; a fault raises "Error fetching user: " |
| UserService.UsersTable.UpdateLastLogin | lib/userService.js:133-151 | only `last_login_at` of the matching user changes; a missing user or fault raises "Error updating last login: " |
| ApiKeysHook.FindById | src/hooks/useApiKeys.js:103 | `find` returns the first entry with the id, or none exactly when no entry has it |
| ApiKeysHook.Replaced | src/hooks/useApiKeys.js:73 | entries with the id become the returned record; length, order and other entries are kept |
| ApiKeysHook.WithStatus | src/hooks/useApiKeys.js:136-140 | entries with the id get the new `is_active`, all their other fields and all other entries are kept |
| ApiKeysHook.MapByIdMirrors | src/hooks/useApiKeys.js:73 | the same per-id change on a list and a table holding the same rows keeps them the same |
| ApiKeysHook.UpdateKeepsMirror | src/hooks/useApiKeys.js:67-73 | after a successful update the patched list holds exactly the table's rows |
| ApiKeysHook.ToggleKeepsMirror | src/hooks/useApiKeys.js:130-140 | after a successful toggle the patched list holds exactly the table's rows |
| ApiKeysHook.DeleteKeepsMirror | src/hooks/useApiKeys.js:96-104 | after a successful delete the filtered list holds exactly the table's rows |
| ApiKeysHook.CreateKeepsMirror | src/hooks/useApiKeys.js:43-49 | after a successful create the prepended list holds exactly the table's rows |
| ApiKeysHook.FindUnique | src/hooks/useApiKeys.js:127 | with unique ids `find` returns the one entry holding the id |
| ApiKeysHook.ToggleTwiceRestores | src/hooks/useApiKeys.js:127-140 | with unique ids, two local toggles of a key restore the list |
| ApiKeysHook.KeysHook.constructor | src/hooks/useApiKeys.js:11-13 | starts with an empty list, loading, no error |
| ApiKeysHook.KeysHook.LoadApiKeys | src/hooks/useApiKeys.js:20-37 | loading ends false; success shows the whole table newest first, with error cleared; a fault keeps the list and records its non-empty message |
| ApiKeysHook.KeysHook.HandleCreate | src/hooks/useApiKeys.js:40-61 | the store create runs; success prepends the new key, clears error and notices "created"; failure keeps the list and records a non-empty message |
| ApiKeysHook.KeysHook.HandleUpdate | src/hooks/useApiKeys.js:64-85 | the store update runs; success replaces the entry by the returned record and notices "updated"; failure keeps the list and records a non-empty message |
| ApiKeysHook.KeysHook.HandleDelete | src/hooks/useApiKeys.js:88-121 | declined confirm changes nothing and reports cancelled; otherwise success removes exactly that id and notices "deleted" with type "error"; failure keeps the list and records a non-empty message |
| ApiKeysHook.KeysHook.HandleToggleStatus | src/hooks/useApiKeys.js:124-155 | a key missing locally fails without a store call; otherwise the store sets the negated status and success flips that entry and notices "activated"/"deactivated"; every failure records a non-empty message |
| ApiKeyFormatter.Repeat | src/utils/apiKeyFormatter.js:6 | `unit.repeat(n)` has n times the unit's length in characters, all from the unit, starting with the unit |
| ApiKeyFormatter.Head | src/utils/apiKeyFormatter.js:6 | `substring(0, 4)` is the first min(4, length) characters |
| ApiKeyFormatter.Tail | src/utils/apiKeyFormatter.js:6 | `substring(length - 4)` is the last min(4, length) characters, the negative start clamped |
| ApiKeyFormatter.FormatApiKey | src/utils/apiKeyFormatter.js:2-7 | a visible key is shown unchanged; a hidden one starts with its first four and ends with its last four characters, with a fixed-length middle |
| ApiKeyFormatter.HiddenKeyShape | src/utils/apiKeyFormatter.js:6 | for keys of at least four characters the middle is exactly 32 glyphs, so the length is 8 + 32 glyph lengths |
| ApiKeyFormatter.SameEndsSameMask | src/utils/apiKeyFormatter.js:6 | hidden keys with equal first four and last four characters display the same |
| ApiKeyFormatter.ShortKeyRepeated | src/utils/apiKeyFormatter.js:6 | a key shorter than four characters appears whole on both sides of the mask |
| KeyVisibility.Toggled | src/hooks/useApiKeyVisibility.js:7-15 | the toggled id flips membership and every other id keeps its membership |
| KeyVisibility.ToggledTwice | src/hooks/useApiKeyVisibility.js:7-15 | toggling the same id twice restores the set |
| KeyVisibility.ToggledCommute | src/hooks/useApiKeyVisibility.js:7-15 | toggles of two ids commute |
| KeyVisibility.VisibilityHook.constructor | src/hooks/useApiKeyVisibility.js:4 | no key is visible at first |
| KeyVisibility.VisibilityHook.ToggleKeyVisibility | src/hooks/useApiKeyVisibility.js:7-15 | a present id is removed, an absent one added; the old set is replaced, not edited |
| ApiKeyModal.ArmedAfterIff | src/components/ApiKeyModal.js:34-52 | the backdrop flag is set iff some backdrop press has been followed by nothing but presses |
| ApiKeyModal.ModalState.constructor | src/components/ApiKeyModal.js:15-16 | the form starts as the initial data, with no backdrop press pending |
| ApiKeyModal.ModalState.HandleSubmit | src/components/ApiKeyModal.js:24-27 | the current form goes to `onSubmit` unchanged |
| ApiKeyModal.ModalState.HandleClose | src/components/ApiKeyModal.js:29-32 | the form is reset to its initial data before `onClose` |
| ApiKeyModal.ModalState.HandleBackdropMouseDown | src/components/ApiKeyModal.js:34-39 | a press on the backdrop sets the flag; a press on the content leaves it |
| ApiKeyModal.ModalState.HandleBackdropMouseUp | src/components/ApiKeyModal.js:41-47 | closes iff the release is on the backdrop and a backdrop press is pending; the flag is false afterwards |
| ApiKeyModal.ModalState.HandleBackdropMouseLeave | src/components/ApiKeyModal.js:50-52 | clears the flag, so a later release cannot close |
| ApiKeyModal.ModalState.Edit | src/components/ApiKeyModal.js:97-99 | a field's change sets that field only |
| ApiKeyModal.ModalState.SyncInitialFormData | src/components/ApiKeyModal.js:20-22 | a new initial form replaces the form |
| Dashboard.GetInitialFormData | src/app/dashboards/page.js:79-94 | defaults `""`, `""`, "read", "1000" when not editing; when editing the key's name, permissions, description or `""`, and a limit text that parses back to the stored limit ("1000" when null) |
| Dashboard.EditFormLimit | src/app/dashboards/page.js:85 | the edit form's limit text is saved as the stored limit, or 1000 when null or 0 |
| Dashboard.UnchangedEditForm | src/app/dashboards/page.js:80-86 | saving an unchanged edit form leaves the row as it was, except a null description becomes `""` and a null or 0 limit becomes 1000 |
| Dashboard.DashboardPage.constructor | src/app/dashboards/page.js:17-18 | neither creating nor editing, so the dialog is closed |
| Dashboard.DashboardPage.OpenCreateForm | src/app/dashboards/page.js:124-128 | opens the create dialog and stops editing |
| Dashboard.DashboardPage.StartEdit | src/app/dashboards/page.js:43-46 | edits that key, closes the create form, the dialog is open |
| Dashboard.DashboardPage.HandleModalClose | src/app/dashboards/page.js:73-76 | neither creating nor editing; the dialog is closed |
| Dashboard.DashboardPage.HandleFormSubmit | src/app/dashboards/page.js:54-70 | while editing, updates that id and clears editing on success; otherwise creates and closes the create form on success; success shows a "success" toast, failure leaves the toast and dialog alone; the hook's list gets the new key in front or the edited one in place with the error cleared, and on failure keeps the list and records the error |
| Notifications.NotificationsHook.constructor | src/hooks/useNotifications.js:4-6 | hidden, empty message, type "success" |
| Notifications.NotificationsHook.ShowToastNotification | src/hooks/useNotifications.js:9-13 | shown with the message and the type, "success" when omitted; independent of the old state, so the last show wins |
| Notifications.NotificationsHook.HandleNotificationClose | src/hooks/useNotifications.js:16-18 | hides the toast and keeps message and type |
| Sidebar.SidebarHook.constructor | src/hooks/useSidebar.js:4 | the sidebar starts open |
| Sidebar.SidebarHook.ToggleSidebar | src/hooks/useSidebar.js:6-8 | negates the flag, so two toggles restore it |
| Sidebar.SidebarHook.HandleResize | src/hooks/useSidebar.js:12-18 | open iff the window is at least 1024 wide |
| Sidebar.SidebarHook.Mount | src/hooks/useSidebar.js:21 | on mount the width rule decides |

## Left out

- The hosted store client and its query builder. Tables are sequences of rows in memory. A failure is the `fault` oracle, and the PGRST116 "no single row" case is computed from the rows.
- `ApiKeysHook.KeysHook.LoadApiKeys`, `ApiKeysHook.KeysHook.HandleCreate`, `ApiKeysHook.KeysHook.HandleUpdate`, `ApiKeysHook.KeysHook.HandleDelete`, `ApiKeysHook.KeysHook.HandleToggleStatus` and `Dashboard.DashboardPage.HandleFormSubmit`: the store's error message is taken to be non-empty (`Store.StoreMessage`). The hook tests `if (error)`, so a store error with an empty message would pass as success: the list would be set to `[]` on load, get `null` entries on create or update, and lose or flip an entry the store kept on delete or toggle. The model does not cover that case.
- `id` is a counter `nextId` rather than `gen_random_uuid()`. Only the uniqueness of ids is modelled.
- `ApiKeys.UsageLimit`: does not promise a non-negative limit, because the code stores a parsed negative number and the `INTEGER` column has no check constraint.
- `ApiKeys.LimitOutOfRange`: the message spells the limit as an integer; for a limit of 10^21 or more JavaScript serialises the number in exponent form, which is not modelled.
- `ApiKeysHook.MissingKeyError`: the TypeError text is the V8 engine's wording (Chrome, Node.js); other engines word it differently.
- `JsNumbers.ParseInt`: numbers are unbounded integers. Float precision loss of very long digit runs and `Infinity` are not modelled. An `apiKey` in a JSON body that is not a string (a number, an object) is not modelled either; the body's key is a string or absent.
- `Math.random` and its floating-point scaling are replaced by the 32 drawn indices.
- The clock (`new Date().toISOString()`) is the integer parameter `now`.
- `data || []` in `loadApiKeys`: a successful list is never null, so that fallback cannot be reached in the model.
- The route files' own copies of `updateLastUsed` omit `.single()`. The model uses the library copy, which has it. The verdict is the same either way because the touched row was just found. The touch's failure is discarded in both copies.
- Null versus undefined in an update: an absent field is left out of the written row (the client drops `undefined`). A field explicitly set to null is treated like an absent one.
- `new URL(request.url)` throwing on a malformed request URL is not modelled; GET receives the parsed `apiKey` parameter.
- The README text's decoding (`response.text()`) and the summarizer's LLM call (`chain.js`) are not part of this model.
- The mask glyph is the source's three-character literal U+00E2 U+20AC U+00A2, a mis-decoded bullet. Only its length matters to the properties.
- Async interleavings: the hook's handlers read `apiKeys` from the render they were created in. Concurrent requests, last-write-wins races and the transient `loading`/`error` values between awaits are not modelled. The final state of each handler is.
- Console logging, JSX rendering, the toast's auto-hide timer, window event-listener registration and removal, and every component listed as presentation only.
- `ApiKeyModal.ModalState`: events are delivered only while the dialog is open; rendering `null` for a closed dialog is not modelled.
- The session/auth wrappers (`src/lib/auth.js`, `src/utils/auth.js`, `src/middleware.js`) and the clipboard helper are not part of this model.
