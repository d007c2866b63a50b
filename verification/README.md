# Session, credential store and view logic of the chat front end

A Dafny model of the parts of the single-page front end that carry behaviour
beyond rendering:

- **Session manager** (`src/App.js`): the in-memory token triple (access token,
  refresh token, expiry instant), the count of silent refreshes, the one pending
  refresh timer, and the four transitions `setTokensOnLogin`, `scheduleRefresh`,
  `refreshTokens` and `logout`. The pure functions `LoggedOut`, `Refreshed`,
  `Scheduled`, `Installed`, `LoggedIn` and `Fired` over a `State` value say what
  each transition does; the class `SessionManager` keeps the same state in
  fields and its methods are proved to move it exactly as those functions say.
  The clock is an explicit `now` in milliseconds, the refresh endpoint's answer
  is an input `Reply` (`NotOk`, `Threw`, or `Ok` with its three optional fields),
  and the timer is an optional `Timer(armedAt, delay)`.
- **Credential store** (`src/services/authTokenService.js`): `localStorage` as a
  map from key to text with the four keys `access_token`, `refresh_token`,
  `expires_at`, `refresh_count`; integers are written as decimal text and read
  back with `Number`. Pure functions (`Save`, `Load`, `Bump`, `Reset`, `Clear`)
  state each operation, and the class `TokenStore` performs the same writes key
  by key.
- **Document view** (`src/components/database/DatabaseView.jsx`): the upload
  file check, `capitalize`, the merge-by-id that a silent poll of the current
  page performs, the reply fallbacks, and the list filter after a delete.
- **Chat view** (`src/components/chat/Chat.jsx`): the class `ChatView` with the
  start of a send (guard, optimistic user message), its completion (assistant
  message or rollback of every optimistic message, selection and history
  update) and `handleNewConversation`.

Each successful refresh calls `updateAccessToken` twice (`src/App.js:67` and
`src/App.js:70`), so both the stored and the in-memory count rise by 2 per
refresh. Under the guards `refreshCount >= 3` (`src/App.js:39`, `:85`, `:101`)
only two silent refreshes follow a login (`Session.AtMostTwoRefreshesPerLogin`).
With both counts at 4, `scheduleRefresh` and the effect arm nothing more and the
session simply stays until its token lapses
(`Session.ExhaustedBudgetFreezesSession`); a third `refreshTokens` call, were one
made, would log out without contacting the endpoint
(`Session.ThirdRefreshForcesLogout`).

`setTimeout` holds its delay as a 32-bit signed integer, so a timer's firing
instant (`Timer.FiresAt`) is its deadline only for delays up to 2^31-1 ms.
Above that (an `expires_in` over about 24.8 days) the delay wraps modulo 2^32:
the timer runs at once whenever the wrapped value is at least 2^31 (about
24.8-49.7 days, 74.6-99.4 days, and so on;
`Session.LongSessionTimerFiresAtOnce`, `Session.EightyDaySessionTimerFiresAtOnce`),
and otherwise after a shorter delay. Either way the timer never runs later than its deadline
(`Session.TimerNeverFiresLate`).

Files: `js_values.dfy` (JavaScript truthiness, `||`, ASCII case, `filter`),
`decimal.dfy` (`String`/`Number` on integers), `auth_token_service.dfy`,
`app.dfy`, `database_view.dfy`, `chat.dfy`.

## Model

| member | source | states |
|---|---|---|
| `Decimal.NatToText` | src/services/authTokenService.js:37-38 | the count is written as a non-empty string of decimal digits |
| `Decimal.NatRoundTrip` | src/services/authTokenService.js:37-38 | `Number(String(n)) == n` for every count, so the stored count reads back unchanged |
| `Decimal.IntToText` | src/services/authTokenService.js:9 | the expiry is written as text that `Number` reads as an integer |
| `Decimal.IntRoundTrip` | src/services/authTokenService.js:9-22 | `Number(String(i)) == i` for every expiry instant, negative ones included |
| `Credentials.TokenStore.constructor` | src/services/authTokenService.js:1-4 | the store starts as the storage the page finds, whose numeric keys are readable |
| `Credentials.TokenStore.LoadTokens` | src/services/authTokenService.js:13-25 | the read-only `loadTokens` query of the store is `Load` of its current storage, so it never yields an empty token |
| `Credentials.Load` | src/services/authTokenService.js:13-25 | `loadTokens` gives null for an absent or empty token, null for an absent expiry, 0 for an absent count, and never an empty token |
| `Credentials.Save` | src/services/authTokenService.js:6-11 | `saveTokens` writes exactly the four keys, the count as "0", and leaves every other key as it was |
| `Credentials.Bump` | src/services/authTokenService.js:27-40 | `updateAccessToken` leaves the numeric keys readable and sets the stored count to the previous count (absent as 0) plus 1, returning that value |
| `Credentials.Counted` | src/services/authTokenService.js:37-39 | the stored count (absent or empty read as 0) plus 1 is written back as decimal text and returned, leaving the numeric keys readable |
| `Credentials.BumpWrites` | src/services/authTokenService.js:27-36 | a token or the expiry is written exactly when that field is truthy and kept otherwise; no key outside the four changes |
| `Credentials.BumpThenLoad` | src/services/authTokenService.js:13-40 | after `updateAccessToken`, `loadTokens` reports the returned count and, for each field, the new value when it was truthy and the previous one otherwise |
| `Credentials.Reset` | src/services/authTokenService.js:42-44 | `resetRefreshCount` makes the count read 0 and changes no other key |
| `Credentials.Clear` | src/services/authTokenService.js:46-51 | `clearTokens` removes exactly the four keys and `loadTokens` then gives all nulls and count 0 |
| `Credentials.SaveThenLoad` | src/services/authTokenService.js:6-25 | round trip: `saveTokens` then `loadTokens` gives the same tokens (empty ones as null) and expiry, with count 0 |
| `Credentials.ClearIdempotent` | src/services/authTokenService.js:46-51 | clearing twice is clearing once |
| `Credentials.LoadReadsOnlyTokenKeys` | src/services/authTokenService.js:1-25 | `loadTokens` depends on the four token keys only |
| `Credentials.TokenStore.SaveTokens` | src/services/authTokenService.js:6-11 | the four `setItem` calls leave the storage equal to `Save` of the old storage |
| `Credentials.TokenStore.UpdateAccessToken` | src/services/authTokenService.js:27-40 | the conditional writes and the read-modify-write of the count give `Bump` of the old storage and its count |
| `Credentials.TokenStore.ResetRefreshCount` | src/services/authTokenService.js:42-44 | the storage becomes `Reset` of the old storage |
| `Credentials.TokenStore.ClearTokens` | src/services/authTokenService.js:46-51 | the four `removeItem` calls give `Clear` of the old storage |
| `Session.LoggedOut` | src/App.js:27-35 | after `logout` all token fields are null, the count is 0, no timer is pending, the four keys are gone, other keys are untouched and the session is not authenticated |
| `Session.LogoutIdempotent` | src/App.js:27-35 | `logout` twice equals `logout` once |
| `Session.Refreshed` | src/App.js:37-78 | `refreshTokens` succeeds iff there is a refresh token, the count is below 3 and the endpoint answered 2xx; every other case is a logout with result false; on success the access token is the server's (possibly absent), the refresh token is the server's if truthy else the old one, the expiry is now + (expires_in, or 1800 when absent or 0) * 1000, both counts rise by exactly 2 and the timer is untouched; the stored access token becomes the server's only when it is truthy (otherwise the previous stored one stays, and a reload brings it back), and the stored expiry becomes the new one only when it is non-zero |
| `Session.Scheduled` | src/App.js:80-98 | `scheduleRefresh` always cancels the pending timer; without an expiry, a refresh token or budget it arms nothing and does not log out; otherwise a timer is armed iff `expiresAt - now - 60000 > 0`, with exactly that delay (deadline one minute before expiry), and else `refreshTokens` runs at once |
| `Session.Installed` | src/App.js:114-123 | `setTokensOnLogin` overwrites all three token fields, sets the expiry to now + (expiresIn, or 1800 when absent or 0) * 1000, and resets the count to 0 in memory and in the store |
| `Session.LoggedIn` | src/App.js:100-125 | after installing the new session and cancelling the pending timer, the effect schedules only for a truthy access token: a timer is armed for the delay when positive, the refresh runs at once when not, and nothing is armed without an access token, a refresh token or an expiry |
| `Session.Fired` | src/App.js:94 | when the timer goes off (at its 32-bit wrapped delay) it is no longer pending and `refreshTokens` runs: the session is logged out exactly when there is no refresh token, the budget is spent or the reply is not 2xx; otherwise it carries the server's access token, the server's refresh token when truthy (else the old one), the new expiry and a count up by 2, and the store holds the same refresh token, the server's access token when truthy (else the previous stored one), the new expiry when non-zero, and every other key unchanged |
| `Session.RefreshRun` | src/App.js:37-78 | repeated `refreshTokens` calls keep the in-memory count equal to the stored one, and succeed at most once per call |
| `Session.RefreshesWithinBudget` | src/App.js:39-71 | whatever the replies, no more than `Budget(refreshCount)` refreshes succeed, and none without a refresh token |
| `Session.AtMostTwoRefreshesPerLogin` | src/App.js:67-71 | from a fresh login (count 0) at most two silent refreshes succeed |
| `Session.ThirdRefreshForcesLogout` | src/App.js:39-42 | two successful refreshes leave both counts at 4; the third attempt fails and logs out whatever the endpoint would answer |
| `Session.ExhaustedBudgetFreezesSession` | src/App.js:85-87 | with the budget spent `scheduleRefresh` only cancels the timer; the session stays authenticated as it was |
| `Session.LoginArmsTimerBeforeExpiry` | src/App.js:89-94 | a login with an access token, a refresh token and `expires_in = 1800` arms a timer of 1,740,000 ms, which runs at its deadline |
| `Session.LoginWithoutAccessTokenArmsNothing` | src/App.js:100-104 | a login with an empty access token arms no timer, leaves the count 0 and is not authenticated |
| `Session.EightyDaySessionTimerFiresAtOnce` | src/App.js:89-94 | a login with `expires_in` of 80 days arms a delay whose 32-bit wrap is negative again, so the refresh runs at once |
| `Session.TimerNeverFiresLate` | src/App.js:94 | for a non-negative delay the browser runs the timer no earlier than when it was armed and no later than its deadline |
| `Session.TimerWithinRangeFiresAtDeadline` | src/App.js:94 | a delay between 0 and 2^31-1 ms is waited out in full |
| `Session.LongSessionTimerFiresAtOnce` | src/App.js:89-94 | a login with `expires_in` of 30 days arms a delay beyond 2^31-1 ms, which the browser wraps, so the refresh runs at once |
| `Session.SessionManager.constructor` | src/App.js:23-25 | the initial tokens and count are what `loadTokens` finds; no timer is pending |
| `Session.SessionManager.Logout` | src/App.js:27-35 | the fields and the store move exactly as `LoggedOut` says |
| `Session.SessionManager.RefreshTokens` | src/App.js:37-78 | the step-by-step refresh (guard, two `updateAccessToken` calls) ends in the state and result `Refreshed` gives |
| `Session.SessionManager.ScheduleRefresh` | src/App.js:80-98 | cancel, guard, arm or refresh at once, as `Scheduled` says |
| `Session.SessionManager.SetTokensOnLogin` | src/App.js:100-125 | save, reset, set fields, then schedule only for a truthy access token, as `LoggedIn` says |
| `Session.SessionManager.IsAuthenticated` | src/App.js:127 | `isAuthenticated` is the truthiness of the in-memory access token, the same predicate the state functions use |
| `Session.SessionManager.TimerFires` | src/App.js:94 | the timer callback, as `Fired` says |
| `Documents.ValidateFile` | src/components/database/DatabaseView.jsx:145-156 | no file gives 'Selecione um arquivo.'; a file is accepted (result "") iff its type is in the allow-list or its lower-cased name ends in `.md` or `.markdown`; otherwise the message naming the type and the list |
| `Documents.MarkdownNameAccepted` | src/components/database/DatabaseView.jsx:148-151 | a `.md`/`.markdown` name in any letter case is accepted whatever its type |
| `Documents.UnlistedTypeRejected` | src/components/database/DatabaseView.jsx:151-153 | without a Markdown name an unlisted type is rejected with a non-empty message that quotes the type |
| `Documents.Capitalize` | src/components/database/DatabaseView.jsx:44-47 | a non-string or empty value is returned as is; a string keeps its length, its first character is upper-cased and the rest lower-cased |
| `Documents.CapitalizeIdempotent` | src/components/database/DatabaseView.jsx:44-47 | capitalizing twice is capitalizing once |
| `Documents.LastIndexOf` | src/components/database/DatabaseView.jsx:104-115 | the incoming map built by id keeps, for each key, the last incoming document with that key, and no later document has it; -1 when none has it |
| `Documents.Lookup` | src/components/database/DatabaseView.jsx:103-115 | `incomingMap.get(key)` finds nothing iff no incoming document has that key, and otherwise the last incoming document with that key, as `new Map` keeps the last entry per key |
| `Documents.Overlay` | src/components/database/DatabaseView.jsx:116 | `{ ...doc, ...incoming }` has the fields of both, the incoming values winning and the others kept; with no match the document is unchanged |
| `Documents.MergePage` | src/components/database/DatabaseView.jsx:113-118 | the merge keeps length and order; a document with no incoming match is untouched; a matched one has the union of both field sets, the incoming values winning |
| `Documents.OverlayKeepsKey` | src/components/database/DatabaseView.jsx:114-116 | overlaying a document with one of the same key keeps the key |
| `Documents.MergeKeepsKeys` | src/components/database/DatabaseView.jsx:113-118 | every merged document keeps its key (document_id, else id) |
| `Documents.MergeIdempotent` | src/components/database/DatabaseView.jsx:113-118 | merging the same incoming page twice is merging it once |
| `Documents.PollOfUnchangedPageIsStable` | src/components/database/DatabaseView.jsx:103-119 | a silent poll returning the same page with distinct keys leaves the list unchanged |
| `Documents.IncomingDocs` | src/components/database/DatabaseView.jsx:99-100 | the documents are `documents`, even when empty, else `items`, else none |
| `Documents.NewTotalPages` | src/components/database/DatabaseView.jsx:101 | the page count is `total_pages`, else `totalPages`, else 1, and never 0 |
| `Documents.Loaded` | src/components/database/DatabaseView.jsx:99-127 | a silent load of the current page with an equal-length reply merges; in every other case the list is replaced by the incoming documents; page, size and page count are set |
| `Documents.RemoveDeleted` | src/components/database/DatabaseView.jsx:292-294 | after a delete no remaining document has its key (id, else document_id) equal to the target, every other document is kept as often as before, in order |
| `Chat.TrimStart` | src/components/chat/Chat.jsx:98-100 | removes exactly the leading white space |
| `Chat.TrimEnd` | src/components/chat/Chat.jsx:98-100 | removes exactly the trailing white space |
| `Chat.Trim` | src/components/chat/Chat.jsx:98-100 | the trimmed text is empty iff the input is all white space, and otherwise neither starts nor ends with white space |
| `Chat.TrimCutsOnlyWhitespace` | src/components/chat/Chat.jsx:98-100 | the trimmed text is the input itself with only white space cut from each end |
| `Chat.TrimIsUnique` | src/components/chat/Chat.jsx:98-100 | any text with the three properties above (a white-space-only cut, empty iff blank, non-white ends) is exactly the trimmed text, so the contract of `Trim` fixes its contents |
| `Chat.UserMessage` | src/components/chat/Chat.jsx:103-107 | the optimistic message has role `user`, the given (trimmed) content and no timestamp |
| `Chat.UserMessageIsLocal` | src/components/chat/Chat.jsx:103-107 | the optimistic user message carries an id starting `local-user-`, the mark the failure path removes it by |
| `Chat.AssistantMessage` | src/components/chat/Chat.jsx:159-164 | the answer's role defaults to `assistant`, it carries the reply's text and timestamp, and its id never starts `local-user-` |
| `Chat.WithoutLocal` | src/components/chat/Chat.jsx:171-173 | the rollback removes every message whose id starts `local-user-` and keeps every other one, as often as before, in order |
| `Chat.FailedSendRollsBack` | src/components/chat/Chat.jsx:109-173 | appending the optimistic message and then rolling back gives the rollback of the list before the send |
| `Chat.RecordConversation` | src/components/chat/Chat.jsx:143-155 | the id ends up listed; an already listed id leaves the list as is, a new one is prepended; distinct ids stay distinct |
| `Chat.ChatView.constructor` | src/components/chat/Chat.jsx:15-24 | the view starts with empty lists, no selection, empty input, not sending, no error |
| `Chat.ChatView.BeginSend` | src/components/chat/Chat.jsx:92-115 | nothing changes while sending or with a blank input; otherwise exactly one user message with the trimmed text is appended, the input is cleared and sending starts, remembering whether no conversation was selected |
| `Chat.ChatView.CompleteSend` | src/components/chat/Chat.jsx:130-182 | on a reply: a truthy `conversation_id` becomes the selection, a history entry (title defaulting to 'Nova Conversa') is recorded only if the conversation was new, and exactly one assistant message is appended; on a failure every local message is removed and a 401 asks for logout, any other error sets the message; sending ends on both paths |
| `Chat.ChatView.NewConversation` | src/components/chat/Chat.jsx:186-191 | clears the selection, the messages, the input and the error |

## Left out

- Network I/O (`fetch`, `axios`, `response.json()`): replies are inputs (`Session.Reply`, `Documents.ListReply`, `Chat.ChatReply`); a body that cannot be parsed is the `Threw` reply.
- Real time and timers: `Date.now()` is the parameter `now`; `setTimeout`/`clearTimeout` are the optional pending timer; the 5-second polling interval of the document view is not modelled.
- React machinery: hooks, the effects of `src/App.js:100-112`, rendering, routing, `scrollToBottom` and `window.confirm`. `setTokensOnLogin` is modelled as cancelling the pending timer and then scheduling with the new tokens only when the new access token is truthy, which is what the effect at `src/App.js:100-104` does; the call at `src/App.js:124` itself runs with the previous render's tokens and is modelled as arming nothing, which holds whenever the previous session had no refresh token, no expiry or a spent budget. Over a live session the stale call can instead act on the previous session: it can leave that session's timer pending when the new access token is empty, or, when that session still has a refresh token and budget and its delay is already at most 0, run the previous `refreshTokens` at once (`src/App.js:96`), exchanging the old refresh token, whose completion then overwrites the fresh login's tokens or logs it out (`src/App.js:40`, `:51`, `:67-71`). Neither is modelled. The same effect also re-runs after every successful refresh that leaves a truthy access token and budget (count 2), and re-arms the timer through `scheduleRefresh`; the model does not run it by itself: `Session.Fired` and the refresh-at-once branches of `Session.Scheduled` and `Session.LoggedIn` end with no timer, and re-arming is left to the caller of `SessionManager.ScheduleRefresh`.
- The stale handle left in `refreshTimeoutRef` after a timer fired or was cancelled in `scheduleRefresh`: the model keeps only whether a timer is pending.
- Concurrency between a timer-fired and a manual refresh: the model runs steps one after another and adds no single-flight guard, because the code has none.
- `Credentials.Save`: requires both tokens to be present strings; storing `"null"`/`"undefined"` for a missing token is not modelled.
- `Credentials.Load`, `Credentials.Bump`, `Credentials.Counted`, `Credentials.Reset` and the `Credentials.TokenStore` methods: require the two numeric keys to hold integer text, as every writer in the store leaves them; text that `Number` reads as NaN (a hand-edited store) is not modelled.
- `Decimal.IntRoundTrip`: integers are unbounded; JavaScript's loss of precision beyond 2^53 is not modelled, nor fractional `expires_in` values.
- `Documents.Capitalize`: case mapping is for ASCII letters only; `toUpperCase`/`toLowerCase` of other characters is not modelled (likewise the lower-casing of file names in `Documents.ValidateFile`).
- `Chat.Trim`: white space is the ASCII set plus no-break space, byte-order mark and the line and paragraph separators; the other Unicode space separators are not modelled.
- `Chat.ChatView.CompleteSend`: a 2xx reply without a body (which throws inside the success path and takes the failure path) is not modelled; message ids are text, not arbitrary values passed through `String`.
- `formatDateToBR` (locale formatting through `Intl`), the upload, update and consult requests of the document view, and the login form (`src/components/auth/Login.jsx`), whose only logic is passing the reply fields to `setTokensOnLogin`.
- The `setUploadError('')` side effect inside `validateFile` and the loading/error flags of `loadDocuments`.
