# star-focus: roster, local mirror and study-session countdown

star-focus is a small React app for parents. A parent registers children,
gives each child study subjects with a duration in minutes, runs a countdown
"study session" for one subject, and the child earns a star when the
countdown completes. The roster is kept in React state, mirrored into an
AES-encrypted entry of the browser's local key-value store, and saved
best-effort to Firestore.

This project models the parts of that app with behaviour that can be stated
exactly. It proves properties of the model.

- `Utils` (`utils.dfy`): `utils.sanitize`, which removes every `<` and `>`,
  and the `Array.filter` the handlers use.
- `Storage` (`storage.dfy`): `storage.setEncrypted` and
  `storage.getEncrypted`, plus the choice of secret. CryptoJS and `JSON`
  are foreign code. They enter as a `Codec` of function values. What the
  model assumes of them is the predicate `Sound`: decryption under the same
  secret undoes encryption, parsing undoes serialisation, and neither output
  is empty. Lemmas take `Sound` as a hypothesis; nothing is assumed globally.
- `Roster` (`roster.dfy`): the child, subject, draft and parent records,
  and the spread/`filter`/`map`/`find` transforms behind `addSubject`,
  `removeSubject`, `addChild`, `deleteChild` and `addStar`.
- `Sync` (`sync.dfy`): the `App` component of src/App.jsx as a class. Its
  fields are `user`, `roster` (the `children` state), `store` (the local
  key-value store), `notice` (the notification) and a ghost `trace`, which
  records the order of effects. `ParentDashboard`'s session slot is the
  class `Dashboard`. Remote calls, `window.confirm` and `signOut` are
  boolean inputs. Fresh ids and timestamps are parameters.
- `StudySession` (`study_session.dfy`): the countdown as the pure `Step`/`Run`
  and the class `Countdown`. One call of `Tick` is one delivery of the
  `setInterval` callback. This module also holds `formatTime`.
- `LegacyApp` (`legacy_app.dfy`): the older copy in SRC/App.jsx. Its
  `sanitize`, `storage` and `addSubject` are textually the same as in
  src/App.jsx (SRC/App.jsx:17, 23-36, 89-93). They are modelled once, by
  `Utils.Sanitize`, `Storage` and `Roster.AddSubject`. Its `App` component
  has no stars and no sessions, and is a class of its own.

Behaviour of the code worth knowing, which the model keeps:

- `getEncrypted` does not swallow malformed JSON. `JSON.parse` is outside
  the `try`, so `Storage.Get` returns `Err(MalformedJson)` and does not
  return "no value". A failed decryption, an empty ciphertext and an empty
  plaintext do read as `null`.
- When `addChild`, `deleteChild` or `addStar` hits a remote failure, it
  shows a failure notification. The handler's own closing notification
  replaces it before the handler returns: success for `addChild` and
  `addStar`, and info for `deleteChild`. The final `notice` is always that
  closing one. The failure appears only in `trace`. `Notice` records which
  message was shown, not its display type.
- `addStar` with an id no child carries still calls `saveDocument` when
  signed in, passing `undefined`. The trace records this as
  `RemoteSave(None)`.
- Nothing in the code stops a second session from starting. Only the
  rendering prevents it: while a session is active the dashboard shows only
  the countdown. `Dashboard.StartSession` states this as its precondition.
- `handleLogout` clears the user and the roster but not the local mirror.
  If the awaited `signOut` rejects, the handler stops before clearing
  anything.

## Model

| member | source | states |
|---|---|---|
| `Utils.Sanitize` | src/App.jsx:19 | the result is never longer than the input and contains no `<` and no `>` |
| `Utils.SanitizeCount` | src/App.jsx:19 | every character other than `<`/`>` occurs in the result exactly as often as in the input; angle brackets occur zero times |
| `Utils.SanitizeConcat` | src/App.jsx:19 | sanitising a concatenation is concatenating the sanitised parts, so the kept characters stay in their original order |
| `Utils.SanitizeKeepsClean` | src/App.jsx:19 | a text is returned unchanged exactly when it contains no `<` and no `>` |
| `Utils.SanitizeIdempotent` | SRC/App.jsx:17 | sanitising twice gives the same as sanitising once (the same `sanitize` text as src/App.jsx:19) |
| `Utils.Filter` | src/App.jsx:402 | `Array.filter` returns at most as many elements, every one of which satisfies the predicate |
| `Utils.FilterCount` | src/App.jsx:402 | `filter` keeps every occurrence of a kept value and drops every occurrence of any other value |
| `Utils.FilterConcat` | src/App.jsx:402 | `filter` distributes over concatenation, so the kept elements stay in order |
| `Utils.FilterKeepsAll` | src/App.jsx:402 | `filter` returns its input unchanged exactly when every element satisfies the predicate |
| `Utils.Find` | src/App.jsx:420 | `Array.find` returns only an element that satisfies the predicate |
| `Utils.FindSpec` | src/App.jsx:420 | `find` returns `undefined` exactly when no element satisfies the predicate, and otherwise the first element that does |
| `Storage.Secret` | src/App.jsx:27 | the secret is never empty; it is `VITE_APP_STORAGE_SECRET` when that is set and non-empty, and `'change_this_secret_in_prod'` otherwise |
| `Storage.Put` | src/App.jsx:26-30 | `setEncrypted` stores the encryption of the serialised value under the key and leaves every other key as it was |
| `Storage.Get` | src/App.jsx:31-37 | `getEncrypted` returns `null` for an absent key; it fails exactly when a non-empty ciphertext decrypts to a non-empty text that `JSON.parse` rejects; it returns a value exactly when a non-empty ciphertext decrypts to a non-empty text that parses, and that value is the parse; so an empty ciphertext, a failed decryption and an empty plaintext all read as `null` |
| `Storage.GetAfterPut` | src/App.jsx:26-37 | if the cipher and JSON round-trip, reading a key right after writing it returns the value written |
| `Storage.GetOtherKey` | src/App.jsx:26-37 | writing one key never changes what another key reads |
| `Roster.AddSubject` | src/App.jsx:102-114 | when both prompts are answered and non-empty, exactly one subject is appended (fresh id, sanitised name, given duration) and the earlier subjects and other fields are unchanged; otherwise the draft is unchanged |
| `Roster.RemoveSubject` | src/App.jsx:116-121 | `removeSubject` leaves no subject with the id and does not change the draft's other fields |
| `Roster.RemoveSubjectSpec` | src/App.jsx:116-121 | only the subjects with that id are dropped; each other subject keeps its multiplicity; a draft without the id is unchanged |
| `Roster.RemoveSubjectUndoesAdd` | src/App.jsx:102-121 | removing a subject just added under a fresh id restores the draft |
| `Roster.NewChild` | src/App.jsx:372-377 | the new child carries the given id and time, the draft's birth date, subjects and stars, and the name `Sanitize(d.name)`, so it is no longer than the draft's and has no `<` or `>` |
| `Roster.RemoveById` | src/App.jsx:402 | `deleteChild`'s filter leaves no child with the id |
| `Roster.RemoveByIdSpec` | src/App.jsx:402 | only the children with the id are removed; each other child keeps its multiplicity; an unknown id leaves the roster unchanged |
| `Roster.RemoveByIdConcat` | src/App.jsx:402 | removal distributes over concatenation, so the surviving children stay in order |
| `Roster.RemoveUndoesAppend` | src/App.jsx:386-402 | deleting a child just appended under a fresh id restores the previous roster |
| `Roster.AddStarTo` | src/App.jsx:409-414 | `addStar`'s map keeps the roster's length |
| `Roster.AddStarToAt` | src/App.jsx:409-414 | a child with the id gets `(stars or 0) + 1` stars and nothing else changes; every other child is unchanged |
| `Roster.AddStarUnknown` | src/App.jsx:409-414 | an unknown id leaves the roster unchanged |
| `Roster.AddStarTotal` | src/App.jsx:409-414 | the roster's star total grows by exactly the number of children that carry the id |
| `Roster.CountIdUnique` | src/App.jsx:409-414 | with distinct ids, the number of children an award reaches is 1 for a present id and 0 otherwise |
| `Roster.FindById` | src/App.jsx:420 | `find` returns only a child with the requested id |
| `Roster.FindByIdSpec` | src/App.jsx:420 | `find` returns `undefined` exactly for an unknown id; otherwise it returns the first child with the id (through `Utils.FindSpec`) |
| `Sync.FindParent` | src/App.jsx:326 | `find` on the stored parents: any parent returned has the uid and is the first in the list with it; none is returned exactly when no parent has the uid |
| `Sync.DisplayName` | src/App.jsx:331 | the name when it is non-empty, otherwise the email; empty only when both are |
| `Sync.App.constructor` | src/App.jsx:309-312 | the first render has no user, an empty roster and no notification, over the store the browser kept |
| `Sync.App.RestoreFromCache` | src/App.jsx:317-320 | a cached roster replaces the in-memory one; a miss or a parse failure leaves the roster unchanged; nothing else changes |
| `Sync.App.OnAuthStateChanged` | src/App.jsx:321-338 | sign-out clears the user and leaves the trace. When both fetches succeed, the user is the first stored parent with the uid, or a new record built from the principal. The cloud roster then replaces the roster and is mirrored locally, and the trace gains exactly `SetChildren`, then `LocalWrite`, then the welcome `Notify`. If the parents fetch fails, the user, roster and store keep their values. If only the children fetch fails, the user is set and the roster and store keep theirs. Either failure shows the load-failure notice and adds only its `Notify` to the trace. |
| `Sync.App.HandleLogout` | src/App.jsx:364-369 | after logout completes, the user is none and the roster is empty. The local store is never changed. If `signOut` rejects, the user, the roster and the notice keep their values. |
| `Sync.App.AddChild` | src/App.jsx:371-390 | the roster becomes the old roster plus one `NewChild` (given id, sanitised name). The new roster does not depend on the remote outcome. The local write is the last effect before the notice. The mirror then reads back the roster. |
| `Sync.App.DeleteChild` | src/App.jsx:392-406 | if declined, nothing changes (including the trace). If confirmed, the roster is filtered by id, the remote delete is tried only when signed in, the local write comes last and the mirror reads back the roster. |
| `Sync.App.AddStar` | src/App.jsx:408-429 | the roster is `AddStarTo(old roster, id)`; the local write comes before the remote save; the mirror reads back the roster whatever the remote outcome |
| `Sync.Dashboard.constructor` | src/App.jsx:182-184 | the dashboard starts with no active session and no countdown |
| `Sync.Dashboard.StartSession` | src/App.jsx:186-188 | the active session becomes (child, subject); a fresh countdown starts running at `duration * 60` with no completion yet |
| `Sync.Dashboard.EndSession` | src/App.jsx:190-193 | the roster becomes `AddStarTo` of the old roster for the child, with the star notice; then the session is cleared, and the countdown is stopped with its completion count unchanged. The user is kept, the store gets the new roster, and the mirror reads back the roster. The trace is `addStar`'s: local write first, then the guarded remote save, then the star notice. |
| `Sync.Dashboard.CancelSession` | src/App.jsx:195-197 | clears the session and awards no star, since the app is outside its frame; the countdown is stopped and its completion count is unchanged |
| `Sync.Dashboard.Tick` | src/App.jsx:199-210 | a tick completes exactly when `Step` fires. A completing tick awards the session's child one star, writes the new roster to the store so the mirror reads it back, keeps the user, ends on the star notice with `addStar`'s trace, and ends the session. Any other tick only advances the countdown and leaves the app unchanged. |
| `StudySession.InitialSeconds` | src/StudySession.jsx:4 | the starting count is a whole number of minutes, exactly the subject's duration, and positive exactly when the duration is |
| `StudySession.Step` | src/StudySession.jsx:11-17 | a tick on a stopped countdown does nothing. `prev <= 1` gives 0, stops the countdown and fires. Any other `prev` gives `prev - 1` (at least 1) without firing. |
| `StudySession.Run` | src/StudySession.jsx:10-19 | a countdown still running after `k` ticks was running at the start, has not fired, and has exactly `k` fewer seconds |
| `StudySession.RunStopped` | src/StudySession.jsx:10-21 | after the interval is cleared, further deliveries change nothing and fire nothing |
| `StudySession.RunCountsDown` | src/StudySession.jsx:11-17 | from `m >= 1` seconds, `k < m` ticks leave `m - k` seconds with the countdown running and nothing fired |
| `StudySession.RunCompletes` | src/StudySession.jsx:10-19 | after `max(m, 1)` or more ticks the countdown is at 0, stopped, and has fired exactly once |
| `StudySession.RunNonNegative` | src/StudySession.jsx:11-17 | from a non-negative start the remaining time stays non-negative through any number of ticks, and completion fires at most once |
| `StudySession.OneMinuteSession` | src/StudySession.jsx:4-17 | a one-minute subject starts at 60 seconds; 59 ticks leave 1 second with no completion; the 60th tick completes, once |
| `StudySession.Countdown.constructor` | src/StudySession.jsx:4-5 | the countdown starts at `InitialSeconds(subject)`, running, with no completion |
| `StudySession.Countdown.Tick` | src/StudySession.jsx:10-19 | the new state and the `onComplete` flag are `Step` of the old state. The completion count rises by one exactly when the tick fires, so it never exceeds one (`Valid`). |
| `StudySession.Countdown.Teardown` | src/StudySession.jsx:21 | the cleanup stops the interval without changing the remaining time or the completion count |
| `StudySession.JsRem` | src/StudySession.jsx:26 | JavaScript's `%` equals Dafny's for a non-negative dividend and for a negative one it is minus `|a| mod b`, so it lies in `(-b, 0]` |
| `StudySession.DecimalRoundTrip` | src/StudySession.jsx:27 | reading back the decimal text of a non-negative integer gives that integer |
| `StudySession.PaddedSeconds` | src/StudySession.jsx:27 | a seconds value below 60 is rendered as exactly two digits that read back as the value |
| `StudySession.FormatTime` | src/StudySession.jsx:24-28 | the text has at least three characters and starts with a minus sign exactly when the count is negative |
| `StudySession.FormatTimeRoundTrip` | src/StudySession.jsx:24-28 | for `s >= 0`, `formatTime(s)` is the decimal `s / 60`, a colon, and two digits that read as `s % 60`; parsing it back gives `s` |
| `StudySession.FormatTimeNegative` | src/StudySession.jsx:24-28 | a negative count (only reachable from a negative duration) renders with two signs: `formatTime(-90)` is `-2:0-30` |
| `LegacyApp.App.constructor` | SRC/App.jsx:141-144 | the first render has no user, an empty roster and no notification |
| `LegacyApp.App.OnAuthStateChanged` | SRC/App.jsx:153-170 | the same branches as the newer listener. When both fetches succeed, the user is set and the cloud roster is loaded and mirrored. If the parents fetch fails, the user, roster and store keep their values. If only the children fetch fails, the user is set and the roster and store keep theirs. Either failure shows the load-failure notice. The trace changes exactly as in the newer listener. |
| `LegacyApp.App.HandleLogout` | SRC/App.jsx:195-199 | after logout completes, the user is none and the roster is empty; the store is unchanged |
| `LegacyApp.App.AddChild` | SRC/App.jsx:201-207 | appends exactly one sanitised child with the given id; the roster does not depend on the remote outcome; the mirror reads back the roster |
| `LegacyApp.App.DeleteChild` | SRC/App.jsx:209-215 | if declined, nothing changes; if confirmed, the roster is filtered by id, keeping order, and the mirror reads back the roster |

## Left out

- Rendering, styling, the `Notification` and `AuthScreen` components, and
  the 4-second `setTimeout` that clears a notification are UI. `notice` holds
  the last notification set.
- `handleSignUp` and `handleLogin` (src/App.jsx:346-362) are left out. They
  only sequence Firebase Auth calls (create user, send verification, sign in,
  sign out if unverified). Firebase Auth is not part of this model.
- src/firebaseService.js and Firestore are left out. The remote store's state
  is not modelled. Each remote call is a boolean input and appears in `trace`.
  `saveDocument`'s added `userId` and its merge are not modelled.
- CryptoJS AES, `JSON.stringify`/`JSON.parse` and `localforage` are foreign
  code. They are the function values of `Storage.Codec`. A `localforage`
  write is taken to succeed. A rejected write would escape the handler.
- `utils.generateId`, `Date.now`, `Math.random` and the ISO timestamps are
  non-deterministic. The id and the timestamp are parameters.
- `String(str)` in `sanitize` coerces non-strings (`null` becomes `"null"`).
  The model's input is always a string, as the form's inputs are.
- `Number(dur)` is float parsing, so it can yield `NaN` or a fraction. The
  duration is an `int` given by the caller beside the raw answer, and the
  raw answer is used only for the emptiness test.
- `setInterval` timing, React's batching and strict-mode double invocation
  of updaters are not modelled. Neither is the restart of the interval when
  `onComplete` changes identity on a re-render. One `Tick` is one delivery.
- Handlers read `children` from the render they belong to (a stale closure).
  The model reads the current field. The two start-up tasks
  (`RestoreFromCache` and `OnAuthStateChanged`) may finish in either order.
  The model gives each as a method, and either order can be composed.
- CryptoJS AES with a passphrase draws a random salt for each encryption.
  `Codec.encrypt` is a function, so the model treats encryption as
  deterministic. The `store == Put(...)` clauses fix one ciphertext the
  program does not guarantee. The properties proved depend only on reading
  the store back.
- Child records loaded from Firestore carry fields the app never reads,
  such as `userId`. `Roster.Child` keeps only the fields the app reads or
  writes. A missing `stars` is `None`.
