# Mediro front end: a verified model of its stateful core

Mediro is a React single-page front end for a health chatbot. Most of it is
markup. This project models the parts that hold logic, with every behaviour
proved against a specification:

- **the chat modal** (`src/components/ChatModal.tsx`):
  - `formatToHtml` turns a bot reply into HTML. It escapes `&`, `<` and `>`, splits the text into lines, rewrites `**bold**` and gives each line exactly one block: a `<li>` inside a balanced `<ul>` run, a heading, a `•` paragraph or a plain paragraph.
  - The conversation state: `sendText` with its two guards, the per-message "show more" flags, the 600-unit truncation, the image picker and the voice-transcript join.
- **the axios client** (`src/services/api.service.ts`): the bearer-token request interceptor, and the response interceptor that answers a 401 with at most one refresh and one replay, or clears the session and sends the page to `/login`.
- **`AuthService`** (`src/services/auth.service.ts`): `register`, `login`, `logout`, `isAuthenticated` and `getUser` over the browser store.
- **the OTP login modal** (`src/components/LoginModal.tsx`): `sendOtp`, `verifyOtp` and the code-field sanitiser.
- **the OAuth callback page** (`src/pages/AuthSuccess.tsx`).
- **the profile sidebar** (`src/components/ProfileSidebar.tsx`): the country table and dial codes, single-field edits, save, delete and the initial restore.
- **the testimonials section** (`src/components/Testimonials.tsx`): the carousel index and the split of a stat such as `10K+ Happy users`.

All of these share one `localStorage`. `Storage.LocalStorage` models it as a
class holding a `map<string, string>`. The key names are the code's own and
are deliberately not unified:

- The login modal, the callback page and the chat modal use `mediro-token`.
- The axios layer and `AuthService` use `mediro-access-token`, `mediro-refresh-token` and `mediro-auth`.

JavaScript strings are `seq<char>`: one element per UTF-16 code unit for
characters of the Basic Multilingual Plane, one per character beyond it
(see "Left out"). The
regular expressions the code uses are written out as functions over
characters:

- `\s` is the JavaScript white-space and line-terminator set.
- `.` is every unit except a line terminator.

`JSON.stringify` and `JSON.parse` are modelled on the values the application
stores: null, booleans, integers, strings and objects (module `Json`). The
model proves `Parse(Stringify(j)) == Some(j)`, which is what lets a saved
profile or auth record be read back.

Every input from outside becomes a parameter:

- the answer of each `fetch` or axios call
- `Date.now()`
- the `token` query parameter
- the answer to `window.confirm`
- the files picked
- the speech transcript

The page location and the navigation target are outputs.

The modules follow the source files:

| module | models |
|---|---|
| `JsString` | `\s`, `.`, `trim`, digits, `String(n)` |
| `Json` | `JSON.stringify` / `JSON.parse` subset, truthiness, property reads |
| `Storage` | `localStorage` and the key names |
| `ChatFormat` | `formatToHtml` and `esc` |
| `Chat` | the chat modal's state |
| `ApiClient` | `api.service.ts` |
| `AuthService` | `auth.service.ts` |
| `Login` | `LoginModal.tsx` |
| `AuthSuccess` | `AuthSuccess.tsx` |
| `Profile` | `ProfileSidebar.tsx` |
| `Testimonials` | `Testimonials.tsx` |

Where the code does something its documentation does not promise, the model
follows the code:

- `verifyOtp` stores the text `undefined` when a 2xx answer has no `token`.
- A replay that fails after a successful refresh does not clear the store. The replay is returned, not awaited, inside the `try`, so its rejection bypasses the `catch`.
- A refresh does not rotate the refresh token.

## Model

| member | source | states |
|---|---|---|
| `ChatFormat.FormatToHtml` | src/components/ChatModal.tsx:174-200 | The loop over lines, with its `out`/`inList` state, produces exactly `Formatted(raw)`. That is the HTML of the piece list whose shape `FormattedShape` and `FormattedEmpty` state. |
| `ChatFormat.RenderLine` | src/components/ChatModal.tsx:182-195 | One line's HTML is the HTML of its classified block, and it is a list line exactly when the block is an item. |
| `ChatFormat.FormattedEmpty` | src/components/ChatModal.tsx:175 | The output is empty exactly when the input is empty. Every non-empty reply gives some HTML. |
| `ChatFormat.FormattedShape` | src/components/ChatModal.tsx:177-198 | For non-empty input: lists are balanced and never nest; each list is one whole run of consecutive items (`MaximalRuns`); there is one block per `\n`-separated line; block `i` is the classification of escaped line `i`. |
| `ChatFormat.PiecesWellNested` | src/components/ChatModal.tsx:183-198 | Lists never nest and every `<ul>` is closed. No item sits outside a list, and no other block sits inside one. |
| `ChatFormat.PiecesMaximal` | src/components/ChatModal.tsx:183-198 | `<ul>` comes right before an item that follows a non-item line or starts the reply. `</ul>` comes right after an item and is followed by a non-item line or ends the output. So two adjacent lists never occur, and no list is empty. |
| `ChatFormat.OneBlockPerLine` | src/components/ChatModal.tsx:180-197 | Removing the list tags from the output's pieces gives back the block list exactly: one block per line, in order. |
| `ChatFormat.Esc` | src/components/ChatModal.tsx:176 | Escaped text contains no `<` and no `>`. |
| `ChatFormat.ReplaceAll` | src/components/ChatModal.tsx:176 | After a global replace, every unit either came from the input and is not the replaced unit, or came from the replacement. |
| `ChatFormat.EscIsPerUnit` | src/components/ChatModal.tsx:176 | Replacing `&` first, then `<`, then `>`, is the same as escaping each unit once. No entity is escaped twice. |
| `ChatFormat.UnescapeEsc` | src/components/ChatModal.tsx:176 | Decoding `&amp;`, `&lt;` and `&gt;` gives back the original text. |
| `ChatFormat.Lines` | src/components/ChatModal.tsx:177 | `split(/\n/)` gives at least one line, and no line holds `\n`. |
| `ChatFormat.JoinLinesOfLines` | src/components/ChatModal.tsx:177 | Joining the split lines with `\n` gives back the text. |
| `ChatFormat.LinesOfJoinLines` | src/components/ChatModal.tsx:177 | Splitting a join of `\n`-free lines gives back those lines. |
| `ChatFormat.LinesOfEscape` | src/components/ChatModal.tsx:176-177 | Escaping adds and removes no line: line `i` of the escaped text is escaped line `i`. |
| `ChatFormat.CloseAt` | src/components/ChatModal.tsx:181 | The lazy `(.*?)` closes at the first `**` with no line terminator before it. |
| `ChatFormat.BoldAt` | src/components/ChatModal.tsx:181 | A bold span found at the head of the line starts and ends with `**`, and both markers lie inside the line. |
| `ChatFormat.UnboldBold` | src/components/ChatModal.tsx:181 | On escaped text, which holds no `<`, undoing `<strong>`/`</strong>` gives back the line: the bold rewrite loses nothing. |
| `ChatFormat.MarkerEnd` | src/components/ChatModal.tsx:182 | The end of a `/^\s*m\s+/` match lies inside the line. |
| `ChatFormat.HashRun` | src/components/ChatModal.tsx:187-188 | The run of `#` at the head of the line is all `#`, and it stops at a unit that is not `#`. |
| `ChatFormat.HeadingEnd` | src/components/ChatModal.tsx:187 | A `/^#{1,3}\s+/` match has a level from 1 to 3 and ends inside the line. |
| `ChatFormat.ClassifyKeepsSuffix` | src/components/ChatModal.tsx:182-195 | Classification only strips a prefix: the text kept is a suffix of the line, a paragraph keeps the whole line, and a heading has level 1 to 3. |
| `ChatFormat.HeadingLine` | src/components/ChatModal.tsx:187-190 | One to three `#`, then white space, gives a heading of that level whose text has the leading white space trimmed. |
| `ChatFormat.DeepHashesAreParagraphs` | src/components/ChatModal.tsx:187 | Four or more `#` fall through to a plain paragraph. |
| `ChatFormat.ItemLine` | src/components/ChatModal.tsx:182-184 | Blank indentation, `*` and white space give an item with the marker stripped. |
| `ChatFormat.BulletLine` | src/components/ChatModal.tsx:191-192 | Blank indentation, `-` and white space give a bullet with the marker stripped. |
| `ChatFormat.PlainLine` | src/components/ChatModal.tsx:182-194 | A line whose first unit that is not white space is not `*`, `-` or `#`, or is a `#` after white space, is a paragraph holding the whole line. |
| `ChatFormat.MarkerWithoutSpace` | src/components/ChatModal.tsx:182-194 | A `*` or `-` marker with no white space right after it (or at the end of the line) makes the line a paragraph holding the whole line. |
| `ChatFormat.HashesWithoutSpace` | src/components/ChatModal.tsx:187-194 | One to three `#` at the start, not followed by white space or another `#`, make the line a paragraph holding the whole line. |
| `ChatFormat.BlankLine` | src/components/ChatModal.tsx:182-194 | A line of white space only is a paragraph holding the whole line. |
| `ChatFormat.Blocks` | src/components/ChatModal.tsx:180 | There is one block per line. |
| `Chat.ChatModal.SendText` | src/components/ChatModal.tsx:38-112 | Blank text, or a missing or empty `mediro-token`, leaves every field unchanged. Otherwise: the post carries the untrimmed text and the token; the user message and exactly one bot message, each built from its own two clock readings, are appended; the input is cleared; `typing` ends false; the image is dropped; the flags are kept. |
| `Chat.Settle` | src/components/ChatModal.tsx:84-98 | The exchange fails exactly when the fetch rejected, the answer is not 2xx, or a 2xx body is `null` (reading `data.reply` throws). A 2xx object body gives its `reply`, or no text when `reply` is missing or not a string. A 2xx primitive body gives no text. |
| `Chat.UserMessage` | src/components/ChatModal.tsx:47-52 | The user message carries the typed text. Its id is the decimal form of the first clock reading, and its timestamp is the second reading. |
| `Chat.BotMessage` | src/components/ChatModal.tsx:90-107 | The bot message carries the reply with id `at.id + 1`, or the fixed fallback text with id `at.id + 2`. The id tells which case happened. The timestamp is the second clock reading. |
| `Chat.DecimalInjective` | src/components/ChatModal.tsx:48 | `String(n)` is injective on naturals. |
| `Chat.ChatPostCarriesText` | src/components/ChatModal.tsx:61-81 | The multipart form is chosen exactly when an image is attached. Either encoding carries the message text, and the JSON body parses back to `{message}`. |
| `Chat.IdsCanCollide` | src/components/ChatModal.tsx:48-91 | Message ids are not unique: a user message whose id reading is 1 ms after a reply's gets the same id as that reply. |
| `Chat.Toggle` | src/components/ChatModal.tsx:158 | Toggling flips `!!expandedIds[id]` for that id and keeps every other entry. |
| `Chat.ChatModal.ToggleExpanded` | src/components/ChatModal.tsx:157-159 | The flag map becomes the toggled map, and the other state is kept. |
| `Chat.ToggleTwice` | src/components/ChatModal.tsx:158 | Toggling the same id twice shows what was shown before. |
| `Chat.ShownText` | src/components/ChatModal.tsx:231-244 | A reply that is over 600 units and not expanded shows its first 600 units and `...`. Any other reply is shown whole. |
| `Chat.ViewBot` | src/components/ChatModal.tsx:244-258 | The show more/less button appears exactly for replies over 600 units. The second copy appears exactly for an expanded, non-empty reply. |
| `Chat.ExpandedRenderedTwice` | src/components/ChatModal.tsx:244-257 | An expanded non-empty reply is rendered twice, both times as the same non-empty HTML. |
| `Chat.ShortNeverCut` | src/components/ChatModal.tsx:231 | A reply of at most 600 units is formatted in full, with no toggle. |
| `Chat.JoinTranscript` | src/components/ChatModal.tsx:135 | An empty input becomes the transcript. Otherwise the result is the old text, one space, then the transcript. |
| `Chat.ChatModal.OnTranscript` | src/components/ChatModal.tsx:133-136 | The input becomes the joined text, and nothing else changes. |
| `Chat.ChatModal.OnPickImage` | src/components/ChatModal.tsx:115-118 | The first picked file replaces the image. With no file, the image is kept. |
| `Chat.ChatModal.constructor` | src/components/ChatModal.tsx:20-29 | Every piece of state starts empty, with `typing` false. |
| `Storage.LocalStorage.SetItem` | src/services/auth.service.ts:48 | `setItem` writes one key and leaves the rest. |
| `Storage.LocalStorage.RemoveItem` | src/services/auth.service.ts:82 | `removeItem` removes one key and leaves the rest. |
| `ApiClient.RequestInterceptor` | src/services/api.service.ts:15-22 | The headers become `WithBearer` of the old headers, and `_retry` is kept. |
| `ApiClient.WithBearer` | src/services/api.service.ts:17-20 | `Authorization` becomes `Bearer <token>` exactly when `mediro-access-token` is non-empty. Otherwise the headers are unchanged; no other header changes. |
| `ApiClient.ResponseInterceptor` | src/services/api.service.ts:31-69 | The outcome, the calls made, the location, the new store, the headers and `_retry` equal those of the specification function `OnError`. The lemmas below prove its properties. |
| `ApiClient.Request` | src/services/api.service.ts:5-70 | A whole `apiClient` call equals the specification function `Dispatch`. |
| `ApiClient.ClearSession` | src/services/api.service.ts:60-62 | Exactly the three session keys are removed. |
| `ApiClient.DataOf` | src/services/api.service.ts:50 | `response.data.data` is read when the body is an object with a non-null `data`. Otherwise the read throws. |
| `ApiClient.RetriedPassesOn` | src/services/api.service.ts:35-68 | Once `_retry` is set, every error is rejected unchanged, with no call and no store change. |
| `ApiClient.OnErrorBounded` | src/services/api.service.ts:35-57 | The error handler makes at most one refresh post and one replay. It leaves `_retry` set exactly when it was set or the status is 401. |
| `ApiClient.AtMostOneRefresh` | src/services/api.service.ts:35-57 | A request makes at most one refresh and at most two sends. A request already marked `_retry` makes no refresh. The refresh goes out as a bare post that is never intercepted. |
| `ApiClient.OtherErrorsPassOn` | src/services/api.service.ts:35-68 | A non-401 error, or a 401 on a retried request, is rejected with its own status. The store and location are untouched, and only the request itself was sent. |
| `ApiClient.SessionClearedOnlyOnFailedRefresh` | src/services/api.service.ts:39-64 | The page goes to `/login` exactly when a first 401 cannot be refreshed: no refresh token, a rejected post, or an unreadable body. Then exactly the three keys are removed and the call rejects. |
| `ApiClient.SuccessfulRefresh` | src/services/api.service.ts:50-57 | A successful refresh writes only the access token and keeps the refresh token. It replays once with `Bearer <new token>`, and the replay's outcome is the call's. |
| `ApiClient.OtherKeysUntouched` | src/services/api.service.ts:17-63 | No client call changes a key outside the three session keys. |
| `AuthService.SignIn` | src/services/auth.service.ts:43-73 | `register`/`login` post to their endpoint through the client, so its interceptors act first (`Dispatch`, including the session clearing and redirect on a 401 that cannot be refreshed). A rejection or an unreadable `data` adds no write to the client's. Otherwise they write the two tokens and the auth record over the client's store, and return `response.data`. |
| `AuthService.Logout` | src/services/auth.service.ts:75-86 | The post goes through the client and the page goes where the client sent it. Whatever the client did, the store ends as before the call without the three session keys. |
| `ApiClient.OutsideSessionUntouched` | src/services/api.service.ts:17-63 | Outside the three session keys, the store after a client call equals the store before it. |
| `AuthService.GetUser` | src/services/auth.service.ts:105-112 | No auth record (or an empty one) gives null. A stored text that does not parse, or parses to `null`, throws. Otherwise the result is the record's `user` exactly when that is present and truthy, and null when it is missing or falsy or the record is a primitive. |
| `AuthService.AuthenticatedIffBearer` | src/services/auth.service.ts:100-103 | `isAuthenticated()` holds exactly when the request interceptor attaches a bearer header. |
| `AuthService.SignedInAuthenticated` | src/services/auth.service.ts:45-48 | After a sign-in, the user is authenticated exactly when the stored access token is not empty. |
| `AuthService.AuthRecordUser` | src/services/auth.service.ts:50-54 | The auth record's `user` reads back as the user given. A missing user gives no member. |
| `AuthService.SignedInUser` | src/services/auth.service.ts:105-112 | After a sign-in, `getUser()` returns the server's `user`, or null when it was missing or falsy. |
| `AuthService.LoggedOut` | src/services/auth.service.ts:82-112 | After logout, `isAuthenticated()` is false and `getUser()` is null. |
| `AuthService.OnlySessionKeysWritten` | src/services/auth.service.ts:48-84 | Neither sign-in nor logout touches a key outside the three session keys, such as `mediro-token` or `mediro-profile`. |
| `Login.SanitizeOtp` | src/components/LoginModal.tsx:166 | The sanitised code holds only ASCII digits, at most six of them. |
| `Login.Digits` | src/components/LoginModal.tsx:166 | `replace(/\D/g, '')` leaves only digits and never lengthens the text. |
| `Login.DigitsAppend` | src/components/LoginModal.tsx:166 | Dropping non-digits works piece by piece. |
| `Login.DigitsCounts` | src/components/LoginModal.tsx:166 | `replace(/\D/g, '')` keeps every digit unit of the text, as often as it occurs, and nothing else. With `DigitsAppend`, it keeps them in their order. |
| `Login.PrefixDigits` | src/components/LoginModal.tsx:166 | The first `n` digits of a text are the digits of one of its prefixes. |
| `Login.SanitizeIsFirstDigits` | src/components/LoginModal.tsx:166 | The code is the digits of some prefix of the input. That prefix is followed by no more digits unless six were already kept. |
| `Login.SanitizeIdempotent` | src/components/LoginModal.tsx:166 | Sanitising twice gives the same as sanitising once. |
| `Login.SanitizeFixedPoints` | src/components/LoginModal.tsx:166 | A text is left alone exactly when it is at most six digits. |
| `Login.SanitizeIncremental` | src/components/LoginModal.tsx:165-167 | Sanitising keystroke by keystroke gives what sanitising the whole input would. |
| `Login.FailureMessage` | src/components/LoginModal.tsx:37 | The error is the server's non-empty `message`, or else the fallback. |
| `Login.LoginModal.SendOtp` | src/components/LoginModal.tsx:24-45 | An empty email or `loading` makes no request and changes nothing. Otherwise it posts the email. `otpSent` becomes true on a 2xx answer and never goes back. `error` is cleared, then set to the message on failure. `loading` ends false. |
| `Login.LoginModal.VerifyOtp` | src/components/LoginModal.tsx:48-76 | A code that is not six units long, or `loading`, makes no request and writes nothing. On a 2xx answer it writes `mediro-token` = `data.token` and `mediro-user` = `{email, loggedInAt}`, then calls `onLoginSuccess` and then `onClose`. On failure the store is unchanged, `error` holds the message, and `loading` ends false. |
| `Login.LoginModal.OnOtpChange` | src/components/LoginModal.tsx:165-167 | The code field holds the sanitised value, and nothing else changes. |
| `Login.LoginModal.OnEmailChange` | src/components/LoginModal.tsx:15 | The email field holds the typed value, and nothing else changes. |
| `Login.LoginModal.constructor` | src/components/LoginModal.tsx:15-19 | The modal starts empty, not sent, not loading and with no error. |
| `Login.UserRecordRoundTrip` | src/components/LoginModal.tsx:64-67 | The stored user record parses back to the email and the login time. |
| `AuthSuccess.AfterCallback` | src/pages/AuthSuccess.tsx:11-25 | A non-empty token is stored under `mediro-token`. A missing or empty token leaves the store as it was. Keys other than `mediro-token` and `mediro-user` are untouched. |
| `AuthSuccess.HandleCallback` | src/pages/AuthSuccess.tsx:7-26 | The store becomes `AfterCallback`. Navigation goes to `/chat` with a token and to `/login` without one. |
| `AuthSuccess.CallbackStoresGoogleUser` | src/pages/AuthSuccess.tsx:14-20 | The stored `mediro-user` parses back to a record whose `method` is `google`. |
| `AuthSuccess.CallbackLeavesSession` | src/pages/AuthSuccess.tsx:8-26 | The callback never writes the three session keys, so `isAuthenticated()` is unchanged. |
| `Profile.With` | src/components/ProfileSidebar.tsx:143 | A field edit changes that field and keeps all the others. |
| `Profile.ProfileSidebar.Edit` | src/components/ProfileSidebar.tsx:143-364 | A field's `onChange` replaces only that field of the record. |
| `Profile.DefaultProfile` | src/components/ProfileSidebar.tsx:8-24 | The default record is all empty strings, with `countryCode` `+1`. |
| `Profile.DialCode` | src/components/ProfileSidebar.tsx:62-66 | The dial code is never empty. |
| `Profile.DialCodeUnlisted` | src/components/ProfileSidebar.tsx:66 | A name outside the table gets `+1`. |
| `Profile.DialCodeOfEntry` | src/components/ProfileSidebar.tsx:62-66 | A name in the table gets the code of its first entry. |
| `Profile.KnownCodes` | src/components/ProfileSidebar.tsx:28-59 | India gives `+91`, the United Kingdom `+44`, Canada `+1` and the UAE `+971`. |
| `Profile.UnknownCountries` | src/components/ProfileSidebar.tsx:66 | The empty choice and a country outside the table give `+1`. |
| `Profile.ChangeCountry` | src/components/ProfileSidebar.tsx:61-68 | The country is set, the dial code becomes that country's code, and every other field is kept. |
| `Profile.ProfileSidebar.HandleCountryChange` | src/components/ProfileSidebar.tsx:61-68 | The record becomes `ChangeCountry` of the old record. |
| `Profile.FromToJson` | src/components/ProfileSidebar.tsx:71 | A stringified record reads back as the same record. |
| `Profile.Restore` | src/components/ProfileSidebar.tsx:6-8 | With nothing stored, or an empty text, the sidebar starts from the default record. |
| `Profile.SaveThenRestore` | src/components/ProfileSidebar.tsx:6-8 | After `save`, the next sidebar starts from the saved record. |
| `Profile.DeleteThenRestore` | src/components/ProfileSidebar.tsx:75-77 | After a confirmed delete, the next sidebar starts from the default record. |
| `Profile.ProfileSidebar.Save` | src/components/ProfileSidebar.tsx:70-73 | `mediro-profile` holds the stringified record, and no other key changes. |
| `Profile.ProfileSidebar.DeleteProfile` | src/components/ProfileSidebar.tsx:75-97 | A confirmed delete removes `mediro-profile` and resets the record to the default. A declined confirm changes nothing. |
| `Profile.ProfileSidebar.constructor` | src/components/ProfileSidebar.tsx:6-25 | The sidebar starts from the stored record, or from the default when nothing is stored. |
| `Testimonials.NextReview` | src/components/Testimonials.tsx:12 | The next index stays in `[0, n)`. |
| `Testimonials.PrevReview` | src/components/Testimonials.tsx:13 | The previous index stays in `[0, n)`. |
| `Testimonials.Step` | src/components/Testimonials.tsx:78 | Every button keeps the index in range, and indicator `i` selects exactly `i`. |
| `Testimonials.NextAndPrevSteps` | src/components/Testimonials.tsx:12-13 | Next moves one on and wraps from `n - 1` to 0. Prev moves one back and wraps from 0 to `n - 1`. |
| `Testimonials.PrevUndoesNext` | src/components/Testimonials.tsx:12-13 | `prev(next(i)) == i` and `next(prev(i)) == i`. |
| `Testimonials.AdvanceWraps` | src/components/Testimonials.tsx:12 | `k <= n` presses of next move `k` places, wrapping once. |
| `Testimonials.FullCycle` | src/components/Testimonials.tsx:12 | `n` presses of next come back to the same review. |
| `Testimonials.TryHead` | src/components/Testimonials.tsx:103 | A match found by extending the lazy group 1 from a start meets every demand of `/(.+?)\s*\+\s*(.+)/` and has that start. |
| `Testimonials.SearchFrom` | src/components/Testimonials.tsx:103 | A match the search finds meets every demand of the pattern and starts at or after the search's start. |
| `Testimonials.TryHeadComplete` | src/components/Testimonials.tsx:103 | If a match with that start exists whose group 1 ends at `q` or later, extending group 1 from `q` finds one. It finds the shortest group 1, and for that group 1 the latest start of group 2. |
| `Testimonials.SearchFromComplete` | src/components/Testimonials.tsx:103 | If a match starts at `p` or later, the search from `p` finds one. What it finds comes first in the engine's order: leftmost start, then shortest group 1, then latest group 2. |
| `Testimonials.MatchDetermined` | src/components/Testimonials.tsx:103 | The start, the end of group 1 and the start of group 2 fix the whole match, so the first match in that order is unique. |
| `Testimonials.StatView` | src/components/Testimonials.tsx:103-113 | A stat renders exactly when the pattern matches it. It then shows group 1 followed by `+`, and group 2, of the match that comes first in the engine's order. A stat without `+` renders nothing. A rendered figure and caption are non-empty, and the caption is on one line. |
| `Testimonials.TypicalStat` | src/components/Testimonials.tsx:103-113 | For a figure with no `+` that does not end in white space, followed by `+` and a caption that does not start with white space, the card shows the figure with its `+`, then the caption. |
| `Json.RoundTrip` | src/services/auth.service.ts:50-54 | Parsing what `JSON.stringify` wrote gives back the value. |
| `Json.LeadingZeroRejected` | src/services/auth.service.ts:109 | A number with a leading zero (`007`, `-01`) does not parse. |
| `Json.DecimalLeading` | src/services/auth.service.ts:50-54 | `String(n)` starts with `0` only for zero, and has one digit exactly below ten. |
| `Json.Lookup` | src/services/auth.service.ts:109 | A property read finds the last member with that key, or is `undefined` when there is none. |
| `JsString.SkipSpaces` | src/components/ChatModal.tsx:182 | A greedy `\s*` stops at the first unit that is not white space. |
| `JsString.TrimStart` | src/components/ChatModal.tsx:184 | Stripping `^\s+` leaves a suffix that does not start with white space, and removes only white space. |
| `JsString.DecimalValue` | src/components/ChatModal.tsx:48 | `String(n)` is a digit string whose value is `n`. |

## Left out

- JSX rendering, Tailwind classes and animations, `src/App.tsx`, and the presentational components are not modelled. They hold no state the core depends on.
- `fetch` and axios transport, HTTP encoding, the 10000 ms timeout and `withCredentials` are not modelled. Each call is the settled outcome it delivers.
- The `VITE_API_URL` override is not modelled. The base URL is the default `http://localhost:5000/api/v1`.
- `getProfile` and `changePassword` in `auth.service.ts` are not modelled. Each is a single client call with no store access, already covered by `ApiClient.Request`.
- Concurrency is not modelled. Overlapping sends, refreshes racing across requests, and `setState` batching are out of scope. Each handler runs to completion, and its awaited answers are inputs.
- Browser APIs are not modelled:
  - `alert` and `console.error`;
  - speech-recognition start/stop and the `recording` flag;
  - the clipboard and its `execCommand` fallback;
  - `scrollIntoView` and `toLocaleTimeString`;
  - i18n `t()`, whose arrays and strings are inputs.
- `window.confirm` is an input, and navigation and `window.location` are outputs.
- Astral-plane characters are not modelled as units: one such character is one element of a `string` here but two UTF-16 units in JavaScript, so `length` and `slice(0, 600)` count them once rather than twice.
- `Json.Num` holds an unbounded integer, while JavaScript numbers are doubles. `JSON.parse` rounds integers above 2^53, and `JSON.stringify` writes `1e+21` and up in exponent form, which `Json.Parse` rejects. So `Json.RoundTrip` holds for the application's numbers, which are `Date.now()` readings well below 2^53, but not for every JavaScript number.
- JSON is a subset: no arrays, no fractions or exponents, no white space between tokens, and no `\u` escape of a lone surrogate. `Json.Parse` accepts the text `JSON.stringify` writes for these values (integers below 10^21) and rejects a number with a leading zero, as `JSON.parse` does. It also rejects valid JSON texts outside the subset (an array, `1.5`, `1e3`, white space around tokens), which `JSON.parse` accepts.
- `Chat.Settle`: a 2xx answer whose `reply` is missing or not a string yields a bot message with no text. The source then crashes while rendering that message (`m.text.length`). The view functions take a string, so that crash is not modelled.
- `Chat.ChatModal.SendText`: the model does not claim message ids are unique. `Chat.IdsCanCollide` shows they can collide.
- `Profile.ProfileSidebar.constructor` requires that a stored `mediro-profile` text be a profile record, meaning an object with a string for each of the fifteen fields. In the source, any other text becomes the state as parsed, or `JSON.parse` throws. The model does not follow either case.
- `Profile.ProfileSidebar.constructor` keeps only the fifteen fields of the stored record. A stored object with extra members, or with its members in another order, becomes the state as parsed in the source, and a later save writes those extra members back in their stored order. In the model, `Save` writes the fifteen fields in the default order and drops the rest.
- `Profile.ProfileSidebar.Edit` requires an editable field. The country goes through `HandleCountryChange`, and the dial-code input is read-only.
- `Login.LoginModal.VerifyOtp`: a 2xx answer whose body is `null` is modelled as the `TypeError` message the property read raises. The exact wording of that engine message is the model's choice.
- `ApiClient.AtMostOneRefresh` counts the calls of one `apiClient` call. The extra refresh a second request can trigger while the first is refreshing is outside the model, since concurrency is.
