# EAFC26 Transfer Tracker: a verified model

This project is a Dafny model of the logic in three browser scripts of the EAFC26 Transfer Tracker:

- **auth.js**: the OAuth 2.0 authorization-code login with PKCE (RFC 6749 section 4.1, RFC 7636 sections 4.1, 4.2 and 4.5) over the tab's sessionStorage.
- **app.js**: the transfer-list page. This covers the money and name helpers, player metrics, escaping, the sort and filter behind the table, the totals, and the page state that the event handlers change.
- **dashboard.js**: the career-save dashboard. This covers its helpers, the profit of a save's transfers, the saves response, the per-save summaries and the rename editor.

Some things the scripts reach out to are not modelled. These are the clock, the random bytes, the SHA-256 digest, uid(), Date.now() and the outcome of each HTTP call. They are passed in as parameters. A navigation is returned as a value rather than performed.

## Layout

| file | module | models |
|---|---|---|
| text.dfy | Wrappers, Text | `Option`; `trim`, `toLowerCase`, `includes`, `replaceAll` on strings |
| numbers.dfy | Numbers | `Number(string)` for decimal text and `Infinity`; `Math.trunc`; `String(int)`; digit filtering and thousands grouping |
| html.dfy | Html | the five-step `replaceAll` chain of escapeHtml, and its inverse |
| js.dfy | Js | JSON values and records; truthiness, `\|\|`, `??`, `Number()`, `String()` |
| base64.dfy | Base64 | base64UrlEncode (btoa, RFC 4648 sections 4 and 5) |
| auth.dfy | Auth | the auth.js session manager as the class `SessionManager` over a `map<string, string>` store |
| tracker.dfy | Tracker | the pure helpers of app.js |
| tracker_state.dfy | TrackerPage | the state of app.js: class `Page` (players, editingId, seniorityFilter, lastFlashId, sortKey, sortDir) and class `TitleEditor` |
| dashboard.dfy | Dashboard | dashboard.js: helpers, profitFromTransfers as a loop, the summaries loop, and class `SaveList` |

## Defects in the source and how the model reads them

- **Title editor scope error.** app.js:190 refers to `saveTitleEl`, but that name is declared only inside `boot` (app.js:167), so the title editor's setup would throw. The model follows the evident intent: the editor acts on the save-title element.
- **`await` in a non-async handler.** app.js:704-726 uses `await` inside a non-async arrow function, which is a syntax error. The model treats the handler as async, as intended.
- **10-second lifetime.** A token response with `expires_in: 10` never gives a valid session, because isLoggedIn requires 30 s of margin (auth.js:70-71); see `Auth.ExchangeTenSeconds`.
- **Refresh token.** A response without `refresh_token` skips that write (auth.js:147), so an earlier refresh token stays (`Auth.WithTokensFrame`).
- **Infinite lifetime.** `expires_in: "Infinity"` stores the expiry "Infinity", and `exp > nowSec() + 30` (auth.js:71) then holds at every later time, so such a session never expires (`Auth.ExchangeInfinity`).
- **Missing access token.** A token response without `access_token` stores the text "undefined", which then counts as logged in (`Auth.MissingAccessTokenStored`).

## Model

| member | source | states |
|---|---|---|
| Base64.Body | auth.js:36 | btoa's output before padding has 4 characters per 3 bytes plus 2 or 3 for a tail, all from the standard alphabet |
| Base64.StripPadding | auth.js:39 | removing the trailing '=' run leaves a prefix, cuts only '=', and leaves no final '=' |
| Base64.TranslateIsMap | auth.js:37-38 | the two global replaces swap '+' for '-' and '/' for '_' character by character |
| Base64.UrlFromBase64Shape | auth.js:35-40 | the output is a prefix of the character-swapped text, all that is cut is '=', and no '+', '/' or trailing '=' remains |
| Base64.Base64UrlEncodeShape | auth.js:35-40 | on bytes the output is exactly the swapped unpadded base64 text: (4n+2)/3 characters of the URL-safe alphabet |
| Auth.RandomStringIsVerifier | auth.js:48-52 | randomString(64) is 86 characters of the PKCE unreserved set, a valid code_verifier under RFC 7636 section 4.1 |
| Auth.NoTokenNotLoggedIn | auth.js:68-72 | without an access token, isLoggedIn is false |
| Auth.MissingExpiryNotLoggedIn | auth.js:68-72 | a missing expiry reads as 0, so isLoggedIn is false for any clock past the epoch |
| Auth.LoggedInIffExpiry | auth.js:68-72 | isLoggedIn holds iff the token is non-empty and the stored expiry exceeds now + 30, in both directions |
| Auth.LoggedInAfterTokens | auth.js:144-150 | after a successful exchange at `now`, the session is valid at `later` iff the token text is non-empty and later + 30 < now + lifetime |
| Auth.LifetimeNotANumber | auth.js:149-150 | a non-numeric expires_in stores "NaN" and the session is never valid |
| Auth.LifetimeInfinite | auth.js:69-71 | an infinite expires_in stores "Infinity" or "-Infinity"; the session is then valid at every later time exactly when the lifetime is +Infinity and the token text is non-empty |
| Auth.ExchangeInfinity | auth.js:145-150 | expires_in: "Infinity" stores "Infinity" and the session stays valid at every later time |
| Auth.WithTokensFrame | auth.js:145-150 | the callback writes only the access, ID, refresh (when present) and expiry keys; the verifier, every other entry and, without a new one, the refresh token are kept |
| Auth.MissingAccessTokenStored | auth.js:145 | a response without access_token stores "undefined", which counts as logged in |
| Auth.ExchangeOneHour | auth.js:144-150 | {access_token: "abc", expires_in: 3600} gives the token "abc" and a valid session at once |
| Auth.ExchangeTenSeconds | auth.js:68-72 | expires_in: 10 stores the ID token but the session is not valid even at once, because of the 30 s margin |
| Auth.ClearedEffect | auth.js:27-33 | after clearing, there is no token, no verifier and no session; exactly the five STORAGE keys are removed and every other entry is kept |
| Auth.SessionManager.constructor | auth.js:8-25 | the configuration for an origin: redirect to origin/auth.html, sign out to the origin |
| Auth.SessionManager.ClearSession | auth.js:64-66 | removing the keys one by one leaves the store minus the five STORAGE keys |
| Auth.SessionManager.Login | auth.js:78-99 | stores the fresh verifier, then returns the authorize request with response_type=code, S256 and the challenge base64url(sha256(verifier)) |
| Auth.SessionManager.HandleCallback | auth.js:101-154 | error: throws before anything is read or sent. No code: redirects to ./index.html. Missing verifier, a rejected fetch, a non-2xx status, a non-JSON body or a null body: throws. Storage is written only on success, with the tokens and expiry, redirecting to "./" + state |
| Auth.SessionManager.Logout | auth.js:156-165 | clears the five keys and navigates to the provider's logout endpoint |
| Auth.SessionManager.RequireLogin | auth.js:167-173 | logged in: returns true with the store unchanged. Otherwise runs login (stores the verifier, code and S256) and returns false |
| Auth.LoginThenCallback | auth.js:78-154 | after login and a callback with a code, the verifier sent to the token endpoint is the one whose challenge the authorize request carried, with the same redirect URI, and success lands on the return path |
| Tracker.Clamp | app.js:56 | min for a non-finite input, otherwise a value in [min, max], and the input itself when already in range |
| Tracker.AsInt | app.js:63 | the fallback for a non-finite value, otherwise the value truncated toward zero |
| Tracker.AsIntOfInt | app.js:63 | an integer is its own asInt |
| Tracker.ParseMoneyInput | app.js:57-62 | null and undefined give 0 |
| Tracker.ParseMoneyOfInt | app.js:57-62 | an integer amount reads as itself |
| Tracker.ParseMoneyOfGrouped | app.js:57-62 | a comma-grouped digit string reads back as the digits' value |
| Tracker.FullNameCases | app.js:69-73 | the trimmed names joined by one space, or either alone when the other is blank |
| Tracker.ShortNameShape | app.js:74-81 | displayName is "" iff both names are blank. Otherwise it is the surname, the capital initial and '.', or both separated by a space |
| Tracker.PotAvg | app.js:82-87 | null iff both potentials are 0, otherwise their mean, lying between them |
| Tracker.SortIndexMeaning | app.js:446-449 | the first position of String(val \|\| "") in the order list, or 999 iff it is absent |
| Tracker.StatusIndex | app.js:88-94 | statusFromAvg is ≥90 Special, ≥85 Exciting, ≥80 Great, else Sell, and sorts at that rank; no average gives "N/A", which sorts last |
| Tracker.StatusMonotone | app.js:88-94 | a higher average never gets a worse status |
| Tracker.RoiMeaning | app.js:95-101 | roi is null iff cost ≤ 0 or sale ≤ 0. Otherwise roi × cost = sale − cost (profitGBP), roi has the profit's sign and exceeds −1 |
| Tracker.EscapeHtml | app.js:115-122 | the output holds none of `< > " '`, every '&' starts one of the five entities, and it decodes back to String(v) |
| Tracker.FormatMeaning | app.js:523-530 | a disabled field is unchanged; no digits give ""; more than 15 digits give the raw digits; otherwise the comma-grouped value reads back as the digits' value |
| Tracker.FormatIdempotent | app.js:523-530 | formatting its own output changes nothing |
| Tracker.DashboardFromTracker | app.js:12-17 | from a /tracker/ page the dashboard link is ../index.html |
| Tracker.DashboardElsewhere | app.js:15-16 | from a path that never mentions "/tracker" the dashboard link is ./index.html |
| Tracker.StrCmpAntisymmetric | app.js:440-444 | the name order is antisymmetric and 0 only on equal names |
| Tracker.KeyGreaterTotal | app.js:451-471 | two different sort values are ordered one way exactly |
| Tracker.CompareAntisymmetric | app.js:475-486 | the comparator with its tie-break is antisymmetric |
| Tracker.InsertMultiset | app.js:473-487 | inserting adds exactly the one record |
| Tracker.InsertSorted | app.js:473-487 | under an antisymmetric comparator, inserting into a sorted list keeps it sorted |
| Tracker.SortWith | app.js:474 | the sort's result is a permutation of its input |
| Tracker.SortWithSorted | app.js:474 | under an antisymmetric comparator the sort's result is sorted |
| Tracker.CompareByAntisymmetric | app.js:475-486 | the comparator in either direction is antisymmetric, so the sort is well defined |
| Tracker.SortPlayers | app.js:473-487 | the result is a permutation of the list, sorted by the comparator; the list itself is a value and is left as it was |
| Tracker.SortedNeighbours | app.js:473-487 | adjacent rows are in the key's direction, and equal keys are ordered by surname, then first name |
| Tracker.ClickSameColumn | app.js:504-516 | clicking the current column flips asc/desc, and a second click restores it |
| Tracker.ClickNewColumn | app.js:504-516 | a new column starts ascending exactly for player, seniority, position and status |
| Tracker.FilterWithCount | app.js:537-546 | a filter keeps every accepted element as often as it occurs and drops every other |
| Tracker.FilterPlayersCount | app.js:537-546 | the filter keeps every listed player as often as it occurs and drops every other |
| Tracker.RowsMeaning | app.js:535-548 | the table shows exactly the listed players, sorted |
| Tracker.ListedUnfiltered | app.js:425-429 | with no search, ex-players shown and "ALL", only the seniority filter decides |
| Tracker.SumProfitSplit | app.js:604-606 | the profit total is the sale total less the cost total |
| Tracker.TotalsProfit | app.js:600-606 | renderTotals' profit equals its sale minus its cost |
| Tracker.TotalsAfterAppend | app.js:600-606 | adding a player of the filtered seniority raises the cost and sale totals by that player's amounts |
| Tracker.SeniorityPartition | app.js:425-429 | when every player is Youth or Senior, the Youth and Senior totals add up to the All totals |
| Tracker.NormalizeLoaded | app.js:333-339 | seniority becomes Youth or Senior, active becomes N or Y, the money fields are set, and every other field is kept |
| Tracker.NormalizeLoadedIdempotent | app.js:333-339 | normalising a loaded record twice is normalising it once |
| Tracker.NormalizeImported | app.js:752-768 | an imported record has exactly the twelve fields |
| Tracker.ImportedFieldStable | app.js:755-767 | each field of a normalised record normalises to itself |
| Tracker.NormalizeImportedIdempotent | app.js:752-768 | normalising an imported record again gives it back, whatever uid() and Date.now() return the second time |
| TrackerPage.SeniorityFilterOf | app.js:409-410 | "Youth" and "All" are kept, everything else becomes "Senior" |
| TrackerPage.AutoSwitchShowsPlayer | app.js:633-635 | the automatic switch after add or update shows the player it was made for |
| TrackerPage.FindIndex | app.js:652 | the first index whose id matches, or −1 iff none does |
| TrackerPage.RemoveId | app.js:718 | no record with the id is left |
| TrackerPage.RemoveIdCount | app.js:718 | delete removes every record with the id and keeps every other as often as it occurs |
| TrackerPage.RemoveIdShrinks | app.js:718 | an absent id leaves the list as it is; a present one shortens it |
| TrackerPage.CreatePayload | app.js:348-351 | the payload has a truthy id and keeps every other field of the record |
| TrackerPage.Created | app.js:348-354 | the created record is the reply body, or the payload when the reply is empty |
| TrackerPage.CreatePayloadKeeps | app.js:349-350 | a record with an id is sent as it is |
| TrackerPage.MergedFields | app.js:655-659 | with an empty reply, the updated record has the edited id and the first createdAt (or now), every field of the form, and the rest of the old record |
| TrackerPage.LoadedPlayers | app.js:328-344 | no save id or a non-array gives []; otherwise each record normalised |
| TrackerPage.LoadedTotals | app.js:328-344 | for a loaded list, the Youth and Senior totals add up to the All totals |
| TrackerPage.ImportedPlayers | app.js:752-768 | the import maps each parsed record through the normalisation |
| TrackerPage.ImportedHaveIds | app.js:756 | each imported record has a non-empty id, so creating it sends it as it is |
| TrackerPage.ImportTwice | app.js:752-768 | importing an exported import gives the same records |
| TrackerPage.CreatedAll | app.js:772 | the records after the creates: each reply body or the record sent |
| TrackerPage.ImportEmptyReplies | app.js:771-773 | with empty replies a synced import leaves exactly the normalised records |
| TrackerPage.Page.constructor | app.js:270-281 | no players, nothing edited, Senior, sorted by ovr descending |
| TrackerPage.Page.SetSeniorityFilter | app.js:409-417 | sets the filter to the normalised value and changes nothing else |
| TrackerPage.Page.ClickHeader | app.js:504-516 | the new sort key and direction are those of the header-click rule; nothing else changes |
| TrackerPage.Page.Add | app.js:624-645 | on success exactly one record is appended, the filter follows its seniority unless "All", it is flashed and the form is cleared; an invalid form or a failed call changes nothing |
| TrackerPage.Page.Update | app.js:647-672 | with a record being edited and found, only the record at its index changes, to the reply merged over it; otherwise nothing changes |
| TrackerPage.Page.Reset | app.js:687-702 | confirmed and deleted remotely: the list is empty; otherwise nothing changes |
| TrackerPage.Page.RowClick | app.js:704-726 | edit loads the found player's id; delete removes exactly the records with that id and clears the form when it was being edited; an unknown id changes nothing |
| TrackerPage.Page.LoadFromApi | app.js:328-345 | the list becomes the loaded, normalised records |
| TrackerPage.Page.Import | app.js:743-782 | a non-array file changes nothing. Otherwise the list is the normalised records, then the created records once the remote calls succeed |
| TrackerPage.SettledTitleShape | app.js:222 | the committed title is non-empty and trimmed: the trimmed text, or "Untitled" |
| TrackerPage.SettledTitleIdempotent | app.js:222-223 | committing a settled title settles on the same title |
| TrackerPage.TitleEditor.constructor | app.js:166-170 | the heading shows the save's name, or "Untitled" |
| TrackerPage.TitleEditor.Start | app.js:205-213 | remembers the text and enters editing |
| TrackerPage.RevertedTitle | app.js:233 | after a failed rename the heading shows the stored name if it is truthy, else the text before editing, else "Untitled" |
| TrackerPage.TitleEditor.Commit | app.js:215-236 | while editing: leaves editing and sets the tab title to the settled title. On success the heading and the save's name take it; on failure the heading reverts to the stored name, the original text or "Untitled" |
| TrackerPage.TitleEditor.Cancel | app.js:238-245 | while editing, the text before editing comes back |
| TrackerPage.TitleEditor.Click | app.js:247-250 | the button starts an edit (remembering the text, touching nothing else), or commits the one in progress with the full effect of Commit |
| TrackerPage.TitleEditor.KeyDown | app.js:252-256 | while editing, Enter commits (the full effect of Commit) and Escape cancels; other keys do nothing |
| TrackerPage.TitleEditor.Input | app.js:259-263 | while editing, the tab title follows the typed text |
| TrackerPage.TitleEditor.Blur | app.js:265-267 | leaving the heading commits an edit in progress, with the full effect of Commit; otherwise nothing changes |
| TrackerPage.StartThenCancel | app.js:205-245 | starting and cancelling an edit leaves the heading as it was |
| TrackerPage.RenameFlow | app.js:205-236 | edit, type and a successful commit store the settled title as the save's name and heading |
| Dashboard.EscapeHtml | dashboard.js:49-56 | null and undefined give ""; no `< > " '` remains, every '&' starts an entity, and the output decodes back to String(v) |
| Dashboard.ToNumber | dashboard.js:65-68 | 0 for a non-finite conversion, otherwise the number |
| Dashboard.ToNumberOfInt | dashboard.js:65-68 | the decimal text of an integer reads back as that integer |
| Dashboard.FirstNonZero | dashboard.js:74-85 | the first non-zero of the three fields in order: a when non-zero, else b when non-zero, else c; 0 iff all three are 0 |
| Dashboard.ProfitOfAppend | dashboard.js:71-90 | the profit of a list split in two is the sum of the parts' profits |
| Dashboard.ProfitOfSplit | dashboard.js:71-90 | the profit is the total sale less the total cost |
| Dashboard.ProfitFromTransfers | dashboard.js:71-90 | a null list gives 0; otherwise the loop's sum is the sum of sale − cost over the transfers |
| Dashboard.NormalizeSaves | dashboard.js:93-99 | an array is kept, {items: [...]} is unwrapped, any other value becomes [], and a failed call keeps the list |
| Dashboard.SummaryCell | dashboard.js:118-142 | for a save with a unique id: a fulfilled fetch shows the count and profit of its transfers, a rejected one shows "—" |
| Dashboard.RecordFetch | dashboard.js:123-135 | one fetch result: a fulfilled fetch stores its transfer count and profit under the save's id, a rejected one changes nothing |
| Dashboard.CollectSummaries | dashboard.js:133-135 | the loop records exactly the fulfilled results, a later id overriding |
| Dashboard.RenameTo | dashboard.js:226-230 | the name sent is the trimmed draft, non-empty; a blank draft sends nothing |
| Dashboard.RenameToIdempotent | dashboard.js:226 | renaming to a sent name sends the same name |
| Dashboard.DraftForFound | dashboard.js:211-212 | the draft is the first matching save's name, or "" |
| Dashboard.SaveList.constructor | dashboard.js:44-46 | no saves, nothing being edited, an empty draft |
| Dashboard.SaveList.Refresh | dashboard.js:92-102 | the list becomes the normalised response |
| Dashboard.SaveList.Edit | dashboard.js:208-215 | editingSaveId is the clicked id and the draft is that save's name or "" |
| Dashboard.SaveList.Cancel | dashboard.js:217-222 | editingSaveId is null and the draft "" |
| Dashboard.SaveList.Rename | dashboard.js:224-236 | a blank draft is refused with the state unchanged. Otherwise the trimmed name is sent, and on success the editor is reset and the list refreshed |
| Dashboard.SaveList.Input | dashboard.js:248-254 | the draft changes only for the input of the save being edited |

## Left out

- api.js is not part of this model. Every call into it is replaced by its outcome, passed in as a parameter: a reply, a success flag or a response shape.
- SHA-256, `crypto.getRandomValues` and `TextEncoder` (auth.js:42-52) are parameters. btoa is modelled as RFC 4648 base64 over the bytes.
- The `fetch` to the token endpoint (auth.js:133-144) is the `exchange` parameter. Navigation through `window.location` is returned as a value.
- URL percent-encoding and decoding (auth.js:86-96, 152) are not modelled. The return path and state are carried verbatim.
- Number parsing covers decimal text and `Infinity` (sign, digits, fraction, surrounding white space). Exponent, hexadecimal, binary and octal literals are not modelled.
- Auth.LifetimeNotANumber / Auth.IsLoggedIn: an `expires_in` written with an exponent or in hexadecimal (say "3.6e3") reads as NaN in the model, so the model stores "NaN" and reports no session where the code stores a finite expiry.
- `String(n)` of a non-integral number is rendered from its integer part only. The code only writes integral amounts.
- Auth.ExpiryText / Auth.IsLoggedIn: a fractional `expires_in` is stored from the integer part of `nowSec() + expires_in` (say "4600" where the code stores "4600.5"), so the modelled session ends up to one second early.
- Float rounding is not modelled: numbers are exact reals.
- Object and array values inside records are not modelled. Fields are JSON scalars.
- Lists of transfers, saves and players hold records only; a `null` element, on which the code throws, is not modelled. In the code this has two effects:
  - A `null` transfer (`t.costGbp` at dashboard.js:76) rejects that save's summary, and its row shows "—".
  - A `null` save rejects its summary (`s.id` at dashboard.js:122). The row loop then throws on `s.name` (dashboard.js:140), so render and refresh reject. No row appears for that save or any later one, and on first load the page alerts (dashboard.js:10-12).
- `(x || "").trim()` and `(x || "").toLowerCase()` (such as `(p.pos||"").toLowerCase()` at app.js:545) throw in the code on a truthy non-string. The model reads such a value as "" instead (TextOf), so a search filters that player out rather than failing the render.
- `toUpperCase`/`toLowerCase` are modelled for ASCII letters only.
- `Array.prototype.sort` is modelled as a stable insertion sort over the comparator. The engine's own algorithm and the order of its comparator calls are not modelled.
- `localeCompare` with base sensitivity is modelled as a fixed code-point order on strings (StrCmp).
- Currency conversion, `abbrevNumber`, `fmtMoneyAbbrevFromGBP`, `fmtPct` and the average ROI (app.js:124-158, 608-609) are floating-point display code and are left out. Money is in whole pounds.
- `fmtDate`, `toLocaleString` and all DOM rendering, focus, caret placement, `alert`, `confirm`, `prompt`, the flash timer and the JSON export are not modelled. Where a handler asks `confirm`, the answer is a parameter.
- readForm and loadIntoForm/clearForm's form fields are left out. Add and update take readForm's record, None when the form is invalid; clearing the form is modelled as editingId = null.
- The concurrent API calls of reset, import and the summaries (`Promise.all`, `Promise.allSettled`) are modelled by their combined outcome. Each event handler is modelled as running to completion before the next event.
- The dashboard's add, open and delete buttons are not modelled.
- `summaries[s.id]` keys an object by `String(id)`; the model keys it by the JSON value, so the ids 1 and "1" are kept apart.
- TrackerPage.Page.Import: every record's createdAt falls back to one `now`, where the code calls Date.now() once per record.
- Tracker.ParseMoneyInput: its contract states only the null/undefined case; what it gives for integers and grouped digit strings is stated by ParseMoneyOfInt and ParseMoneyOfGrouped.
- `duplicate query parameters` in the callback URL: the query is a map, so only one value per name is modelled.
