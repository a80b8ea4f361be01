# Chat coach: a Dafny model

This project models the core of a small Next.js "personal coach" chat
application backed by a Supabase database and a hosted completion service.

- **Chat turn.** `POST /api/ai/chat` stores the user's message. It then reads
  the user's profile and their first 100 logged messages, writes a system
  prompt that embeds the profile, asks the completion service for a reply,
  stores the reply and returns it (module `ChatRoute`, class
  `ChatRoute.MessageLog`).
- **Profile and preferences stores.** They keep one row per user, keyed by the
  `x-user-id` header. GET reads that row. POST first checks whether a row
  exists, then updates or inserts it (`UserProfile`, `UserPreferences`).
- **Pages.** The signup and forgot-password pages check their input before
  they call the auth service: blank fields, the e-mail pattern
  `/\S+@\S+\.\S+/` and the password length (`Signup`, `ForgotPassword`,
  `Email`).
- **Chat page.** Its state changes on load, send, clear and inactivity
  (`ChatView.ChatPage`).
- **Robot avatar.** Its lamp and picture (`RobotAvatar`).

Shared value types (optional values, JSON body fields, database lookups) are
in `Common`. JavaScript's string semantics (white space as `\s` and `trim()`
see it, UTF-16 length, `join`, splitting into lines) are in `Text`.

Each table is a `map` (profiles, preferences) or a `seq` (the message log)
held by a class. Each POST handler, which writes, is a method on that class.
Its postcondition ties the new table and the response to a pure function of
the old table and the request (`UserProfile.Save`, `ChatRoute.Turn`). The GET
handlers change nothing and are functions (`UserProfile.Get`,
`UserPreferences.Get`). The
properties the code promises are proved about those functions.

Database results, the completion service's answer, the clock and the auth
service's outcome are inputs:
- a database error is an `Option<string>` fault;
- a lookup is a `Lookup` (found, no row, error);
- the completion service is a function from the sent messages to a
  `Completion`.

In three places the code does something a reader may not expect, and the model follows the code:
- The history window is the user's **oldest** 100 messages, because the query
  orders ascending and then limits. `ChatRoute.NewMessageInWindow` shows the
  effect: once a user has 100 logged messages, the new message no longer
  reaches the completion service.
- A completion response whose body is not JSON makes `res.json()` throw. The
  route answers 500 with that error. It does not fall back to the apology
  text, which it uses only when the JSON has no `choices[0].message.content`.
- The preferences POST ignores the error of its existence check. A failed
  check is treated like a missing row, and the route goes on to insert.

## Model

| member | source | states |
|---|---|---|
| Common.UpdatedColumn | app/api/userProfile/route.ts:46-57 | definition of an UPDATE on one column (kept when the body omits the key, null on `null`, the value otherwise); `UserProfile.AbsentAgeOnUpdateAndInsert` and `UserProfile.SaveIdempotent` prove what it does to stored rows |
| Common.InsertedColumn | app/api/userProfile/route.ts:62-70 | definition of an INSERT on one column (the given value, null for an omitted or null key); `UserProfile.GetAfterSave` and `UserProfile.AbsentAgeOnUpdateAndInsert` prove what a GET then returns |
| Common.LookupRow | app/api/userProfile/route.ts:9-17 | definition of the three `.single()` outcomes (found without fault and with the key, no row PGRST116 without the key, the fault's message otherwise); `ChatRoute.ProfileErrorNeverAborts` and the `Get` contracts build on it |
| Text.Trim | app/signup/page.tsx:18 | `trim()` removes the leading and then the trailing white space, and is empty exactly when the string is all white space |
| Text.Utf16Length | app/signup/page.tsx:26 | `password.length` counts UTF-16 code units: between one and two per character, exactly one per character in the Basic Multilingual Plane |
| Text.Join | app/api/ai/chat/route.ts:53 | `join(', ')` of no strings is empty and of one string is that string, and the result starts with the first element |
| Email.DotFromCorrect | app/signup/page.tsx:14 | the scan for `\.\S+` after an `@` succeeds exactly when some end position completes a match |
| Email.AtFromCorrect | app/signup/page.tsx:14 | the scan for the whole pattern from a position succeeds exactly when a match starts at or after it |
| Email.ValidateEmail | app/signup/page.tsx:13-15 | `validateEmail` holds exactly when the string contains `\S+@\S+\.\S+` somewhere |
| Email.ValidateEmailUnanchored | app/signup/page.tsx:14 | the pattern is unanchored: any text around a matching address still matches |
| Email.ValidateEmailNeedsAt | app/signup/page.tsx:14 | every accepted string has an `@` with a non-space character on each side |
| Email.ValidateEmailExamples | app/forgot-password/page.tsx:12 | concrete accepted and rejected strings, including "x a@b.c y" accepted and "a @b.c" rejected |
| Signup.Rejection | app/signup/page.tsx:18-29 | the first failing check decides the message: blank email or password, then an email that does not match, then fewer than 6 UTF-16 units; no message exactly when all pass |
| Signup.LengthCheckIsUntrimmed | app/signup/page.tsx:18-29 | the length check counts the untrimmed password, so surrounding spaces count towards the 6 |
| Signup.SixIsEnough | app/signup/page.tsx:26-29 | for an otherwise valid form, 6 units pass and 5 are rejected with the length message |
| Signup.SignupPage.constructor | app/signup/page.tsx:8-10 | the email, password and message fields start empty |
| Signup.SignupPage.SetFields | app/signup/page.tsx:67-75 | the inputs set email and password and nothing else |
| Signup.SignupPage.HandleSignup | app/signup/page.tsx:17-41 | `signUp` is called exactly when no check fails; otherwise the message is the failing check's; after the call the message is "Error: " plus the auth error or the registration notice |
| ForgotPassword.Rejection | app/forgot-password/page.tsx:14-23 | a blank email gives the "enter your email" message, a non-matching one the "valid email" message, and only a matching one passes |
| ForgotPassword.SameEmailRuleAsSignup | app/forgot-password/page.tsx:12-23 | for a non-blank long enough password, signup accepts an email exactly when the reset page does |
| ForgotPassword.BlankBeforeShape | app/forgot-password/page.tsx:15-23 | a blank email never matches the pattern, so the blank check alone reports it |
| ForgotPassword.ForgotPasswordPage.constructor | app/forgot-password/page.tsx:8-9 | email and message start empty |
| ForgotPassword.ForgotPasswordPage.SetEmail | app/forgot-password/page.tsx:62 | the input sets the email and nothing else |
| ForgotPassword.ForgotPasswordPage.HandleResetRequest | app/forgot-password/page.tsx:14-34 | the reset is requested exactly when the email passes; the message is the failing check's, "Error: " plus the service error, or the link-sent notice |
| RobotAvatar.LampFor | app/components/RobotAvatar.tsx:16-22 | definition of the effect's rule (lamp on exactly for thinking and idle); `RobotAvatar.SyncedFilename` proves the pictures it leads to |
| RobotAvatar.ImageFilename | app/components/RobotAvatar.tsx:35-48 | the picture is always one of 1, 2, 3, 4 or 6 `.png`; the `default` arm is unreachable |
| RobotAvatar.ImageFilenameInverse | app/components/RobotAvatar.tsx:35-48 | which state and lamp pairs show each picture, in both directions |
| RobotAvatar.SyncedFilename | app/components/RobotAvatar.tsx:16-48 | once the lamp follows the state, idle and thinking show 2, error shows 4 and off shows 6, and pictures 1 and 3 need a click |
| RobotAvatar.ThinkingIgnoresLamp | app/components/RobotAvatar.tsx:39-40 | clicking the lamp does not change the picture while thinking |
| RobotAvatar.Avatar.constructor | app/components/RobotAvatar.tsx:11-12 | the lamp starts on |
| RobotAvatar.Avatar.SyncLamp | app/components/RobotAvatar.tsx:16-22 | the effect sets the lamp to the state's value |
| RobotAvatar.Avatar.Rerender | app/components/RobotAvatar.tsx:16-22 | a new `robotState` prop resets the lamp; an unchanged prop leaves a clicked lamp alone |
| RobotAvatar.Avatar.Filename | app/components/RobotAvatar.tsx:73 | the picture of the current render; once the lamp follows the state it is never 1.png or 3.png, and `RobotAvatar.ToggleTwice` and `RobotAvatar.MountInError` state it across events |
| RobotAvatar.Avatar.ToggleLamp | app/components/RobotAvatar.tsx:27-33 | a click flips the lamp and reports the new value to the callback when there is one |
| RobotAvatar.ToggleTwice | app/components/RobotAvatar.tsx:27-33 | two clicks restore the lamp and the picture |
| RobotAvatar.MountInError | app/components/RobotAvatar.tsx:11-48 | an avatar mounted in the error state shows 4.png once its effect has run |
| UserProfile.Get | app/api/userProfile/route.ts:4-19 | 400 without a user id; 500 with the database error's message; the user's row when present; `{}` when there is none |
| UserProfile.UpdatedRow | app/api/userProfile/route.ts:48-56 | definition of the update object (each body field to its column through `UpdatedColumn`, `updated_at` set to now); its ensures give `updated_at` and that an empty body only refreshes it, and `UserProfile.Save`'s ensures place it in the table |
| UserProfile.InsertedRow | app/api/userProfile/route.ts:62-70 | definition of the insert object (each body field through `InsertedColumn`, no `updated_at`); its ensures give a null `updated_at` and all-null columns for an empty body, and `UserProfile.Save`'s ensures place it in the table |
| UserProfile.Save | app/api/userProfile/route.ts:25-75 | 400 without a user id, and 500 on a check or write error, both leaving the table unchanged; success exactly when neither fails, after which only the user's row changes, updated column by column or inserted |
| UserProfile.SaveKeepsOneRowPerUser | app/api/userProfile/route.ts:34-73 | a successful POST keeps one row per user: the table grows by one row exactly when the user had none |
| UserProfile.GetAfterSave | app/api/userProfile/route.ts:4-75 | a GET after a successful POST returns every value the body carried, and `updated_at` is set exactly when the row was updated rather than inserted |
| UserProfile.AbsentAgeOnUpdateAndInsert | app/api/userProfile/route.ts:44-70 | an omitted `age` keeps the stored age on update but stores null on insert |
| UserProfile.SaveIdempotent | app/api/userProfile/route.ts:44-59 | posting the same body twice gives the same row as once, apart from `updated_at` |
| UserProfile.ProfileTable.Post | app/api/userProfile/route.ts:25-79 | the handler's new table and response are those of `Save` |
| UserPreferences.ViewOf | app/api/userPreferences/route.ts:10 | definition of `select('focus, goals, priority')` on a row; `UserPreferences.Get`'s ensures and `UserPreferences.GetAfterSave` state what it returns |
| UserPreferences.Get | app/api/userPreferences/route.ts:4-17 | 400 without a user id; 500 with the error message on any database error, including no row; otherwise focus, goals and priority of the user's row |
| UserPreferences.UpdatedRow | app/api/userPreferences/route.ts:35 | definition of the update object (focus, goals, priority through `UpdatedColumn`, `updated_at` set to now); its ensures give `updated_at` and that an empty body only refreshes it, and `UserPreferences.Save`'s ensures place it in the table |
| UserPreferences.InsertedRow | app/api/userPreferences/route.ts:42 | definition of the insert object (the three fields through `InsertedColumn`, no `updated_at`); its ensures give a null `updated_at` and all-null columns for an empty body, and `UserPreferences.Save`'s ensures place it in the table |
| UserPreferences.Save | app/api/userPreferences/route.ts:19-48 | 400 without a user id; 500 on a write error with the table unchanged; otherwise the saved message, with the user's row updated or inserted and no other row touched |
| UserPreferences.GetAfterSave | app/api/userPreferences/route.ts:4-48 | a GET after a successful POST returns the values the body carried, and an omitted key keeps the stored value on update and is null on insert |
| UserPreferences.MissingRowHandledDifferently | app/api/userPreferences/route.ts:14-16 | for a user with no row the profile GET answers `{}` but the preferences GET answers 500 |
| UserPreferences.IgnoredCheckFaultInserts | app/api/userPreferences/route.ts:26-45 | a failed existence check is ignored: the POST takes the insert branch whatever the table holds, giving the same response as for a user with no row, where the profile route answers 500 and writes nothing |
| UserPreferences.PreferenceTable.Post | app/api/userPreferences/route.ts:19-48 | the handler's new table and response are those of `Save` |
| ChatRoute.UserRows | app/api/ai/chat/route.ts:34-38 | `.eq('user_id', …)` keeps only the user's rows and never adds one |
| ChatRoute.UserRowsAppend | app/api/ai/chat/route.ts:34-38 | the filter distributes over appending rows |
| ChatRoute.UserRowsComplete | app/api/ai/chat/route.ts:34-38 | a row passes the filter exactly when it is in the log and belongs to the user |
| ChatRoute.Window | app/api/ai/chat/route.ts:34-39 | the history is the user's first min(n, 100) rows in log order, as role and content |
| ChatRoute.NewMessageInWindow | app/api/ai/chat/route.ts:15-39 | the message just stored is the window's last entry when the user had fewer than 100 rows, and is left out otherwise |
| ChatRoute.WindowIgnoresOthers | app/api/ai/chat/route.ts:34-39 | other users' rows never change a user's window |
| ChatRoute.WindowIsWholeLogUnderLimit | app/api/ai/chat/route.ts:34-39 | under 100 rows the window is the whole user log, entry by entry in log order |
| ChatRoute.FieldText | app/api/ai/chat/route.ts:49-54 | definition of `?? placeholder` (the value when present, the placeholder when null); `ChatRoute.PromptShowsProfile` proves the prompt lines it yields |
| ChatRoute.StudentText | app/api/ai/chat/route.ts:52 | definition of the truthiness ternary ("Sim" exactly when `is_student` is true, "Não" otherwise, null included); `ChatRoute.PromptShowsProfile` proves its line |
| ChatRoute.PreferencesText | app/api/ai/chat/route.ts:53 | null preferences give "não informado"; an empty list gives the empty string; one element gives itself |
| ChatRoute.PromptLines | app/api/ai/chat/route.ts:47-55 | definition of the template's nine lines with their exact labels; its ensures fix the first two and the last, and `ChatRoute.PromptShowsProfile` proves the prompt splits back into them |
| ChatRoute.SystemPrompt | app/api/ai/chat/route.ts:44-56 | without a profile the prompt is the base text; with one, the base text is a proper prefix |
| ChatRoute.PromptShowsProfile | app/api/ai/chat/route.ts:46-55 | when no field value holds a line break (`ChatRoute.PromptPlacesLine` covers the others), the prompt's lines after the base text are "Usuário:", one labelled line per profile field in order, then the closing line |
| ChatRoute.SplitLines | app/api/ai/chat/route.ts:47-55 | lines written one below the other read back as the same lines when the inner ones hold no line break |
| ChatRoute.LinesAt | app/api/ai/chat/route.ts:47-55 | lines written one below the other are the first k lines, a line break and the rest, for every cut and every content |
| ChatRoute.LineBetweenBreaks | app/api/ai/chat/route.ts:47-55 | every inner line, whatever it holds, stands between two line breaks with the lines before it and after it around them |
| ChatRoute.PromptPlacesLine | app/api/ai/chat/route.ts:46-55 | for every profile, multi-line values included, each labelled field line stands in the prompt between two line breaks, after the base text and "Usuário:" lines and before the closing line |
| ChatRoute.PromptEndsWithGoals | app/api/ai/chat/route.ts:54-55 | present goals, multi-line ones included, appear verbatim after "- Metas: " on the line just before the closing line that ends the prompt |
| ChatRoute.ProfileOf | app/api/ai/chat/route.ts:22-31 | definition of the `profile` used: present exactly when the lookup found a row; `ChatRoute.ProfileErrorNeverAborts` proves a lookup error only loses the profile |
| ChatRoute.MessagesForAI | app/api/ai/chat/route.ts:58-61 | definition of the request list (the system prompt, then the history unchanged); `ChatRoute.SuccessfulTurn` proves what the service is sent |
| ChatRoute.ReplyText | app/api/ai/chat/route.ts:79 | definition of the `??` fallback (the content when present, the apology text otherwise); `ChatRoute.SuccessfulTurn` and `ChatRoute.Finish` state the reply it gives |
| ChatRoute.ErrorText | app/api/ai/chat/route.ts:90-92 | the 500 body's error is the thrown message, or "Internal Error" when that is empty; never empty |
| ChatRoute.Sent | app/api/ai/chat/route.ts:34-61 | the list sent to the service: the system prompt for the profile the lookup gave, then the window of the log with the user's row stored; `ChatRoute.SuccessfulTurn` uses it |
| ChatRoute.Finish | app/api/ai/chat/route.ts:77-92 | after the service answers, a thrown completion gives 500 with a non-empty error and keeps the stored rows as they were; an answer replies 200 with the reply text and appends exactly the reply's row when its insert takes effect |
| ChatRoute.Turn | app/api/ai/chat/route.ts:6-93 | 400 without a message or user id, log unchanged; otherwise the old log is kept as a prefix, at most two rows are added, all the user's, and every error text is non-empty |
| ChatRoute.SuccessfulTurn | app/api/ai/chat/route.ts:15-89 | on success the reply is the service's answer to the prompt plus the window, and the log gains the user's message and then the reply |
| ChatRoute.FailedCompletionKeepsUserRow | app/api/ai/chat/route.ts:15-92 | a thrown completion answers 500 with its message and the user's message stored before the call stays stored |
| ChatRoute.HistoryFaultKeepsUserRow | app/api/ai/chat/route.ts:15-41 | a failed history read answers 500 and the user's message stays stored |
| ChatRoute.ProfileErrorNeverAborts | app/api/ai/chat/route.ts:22-31 | a profile lookup error gives the same turn as a user with no profile |
| ChatRoute.TurnKeepsOtherUsers | app/api/ai/chat/route.ts:15-86 | a turn changes no other user's messages |
| ChatRoute.WithoutUser | app/chat/page.tsx:121 | `delete().eq('user_id', u)` leaves only other users' rows |
| ChatRoute.ClearAffectsOnlyUser | app/chat/page.tsx:121 | after the delete the user's log and next window are empty and every other user's log is unchanged |
| ChatRoute.MessageLog.Post | app/api/ai/chat/route.ts:6-93 | the handler's new log and response are those of `Turn` |
| ChatRoute.MessageLog.DeleteUser | app/chat/page.tsx:121-127 | the delete succeeds exactly without a fault and then removes the user's rows; a fault leaves the log unchanged |
| ChatView.Outcome | app/chat/page.tsx:85-98 | definition of the page's reading of a response (`res.ok` exactly for the reply, a non-OK body carrying the route's error); `ChatView.PageShowsRouteError` and `ChatView.PageMirrorsLog` prove what the page then shows |
| ChatView.Exchange | app/chat/page.tsx:88-92 | definition of the two bubbles an OK answer appends (the sent text as the user's, the reply as the assistant's); `ChatView.ChatPage.FinishSend`'s ensures and `ChatView.PageMirrorsLog` use it |
| ChatView.SendError | app/chat/page.tsx:95-101 | a failed send shows `data.error` when it is non-empty, the generic text otherwise, or the connection text after an exception; never empty |
| ChatView.PageMirrorsLog | app/chat/page.tsx:87-92 | after a successful turn the two bubbles the page appends are the two rows the route logged, in order |
| ChatView.PageShowsRouteError | app/chat/page.tsx:95-97 | after a failed turn the page shows exactly the route's error text |
| ChatView.ChatPage.constructor | app/chat/page.tsx:14-21 | the initial state: empty draft and history, not loading or clearing, no error, robot off, last interaction now |
| ChatView.ChatPage.SetMessage | app/chat/page.tsx:216 | typing changes only the draft |
| ChatView.ChatPage.LoadHistory | app/chat/page.tsx:39-58 | without a user nothing changes; a load error shows its text and turns the robot off with the history kept; a load shows the rows or `[]`, makes the robot idle and records the time |
| ChatView.ChatPage.InactivityTick | app/chat/page.tsx:60-68 | the robot turns off exactly when more than 30000 ms have passed since the last interaction; nothing else changes |
| ChatView.ChatPage.BeginSend | app/chat/page.tsx:70-76 | nothing is sent and nothing changes exactly when the draft is blank or there is no user; otherwise loading, no error, thinking, the time is recorded and the untrimmed draft is sent |
| ChatView.ChatPage.FinishSend | app/chat/page.tsx:78-105 | an OK answer appends the user's text and the reply, clears the draft and makes the robot idle; a failure keeps history and draft, shows the error and shows the error face; loading always ends and the time is recorded |
| ChatView.ChatPage.BeginClear | app/chat/page.tsx:108-118 | without a user only the sign-in error is shown and `clearing` keeps its value; without confirmation nothing happens; otherwise clearing starts and the error is cleared |
| ChatView.ChatPage.FinishClear | app/chat/page.tsx:120-133 | only a successful delete empties the history and turns the robot off; a failure keeps them and shows the prefixed message or the connection text; clearing always ends |
| ChatView.ClearMemory | app/chat/page.tsx:108-134 | without a user only the sign-in error is shown; unconfirmed, nothing changes; a confirmed clear whose delete succeeds removes exactly the user's rows from the log, empties the history, turns the robot off and leaves no error; a failed delete keeps log, history and robot and shows the prefixed message; clearing ends, and draft, loading and time are untouched |
| ChatView.SendMessage | app/chat/page.tsx:70-106 | a blank draft or a missing user sends nothing and changes nothing; otherwise the log becomes the route's turn on the typed draft, an answer appends that draft and the reply as bubbles, clears the draft and makes the robot idle, an error response shows the route's error text with the error face, and loading ends at the given time |

## Left out

- Network, database and HTTP plumbing: Supabase queries, `fetch`, `NextResponse` and JSON encoding. They become inputs (faults, lookups, completion results) and outputs (response datatypes).
- The completion service (app/api/ai/router/route.ts, lib/openrouterClient.ts) is a function parameter from the sent messages to an optional content or a thrown error. Neither file is part of this model.
- Concurrency: two requests racing between a store's existence check and its write can insert two rows for one user. Each request is modelled as atomic, and a table holds at most one row per key.
- Common.InsertedColumn, UserProfile.GetAfterSave, UserProfile.AbsentAgeOnUpdateAndInsert, UserPreferences.GetAfterSave: column defaults are not in the source; an omitted key on INSERT, `updated_at` included, is taken to store null. A schema default (such as `updated_at default now()`) would change what these state for an inserted row.
- UserPreferences.Save: when the user already has a row, the insert made after an ignored check error replaces that row in the map. A real INSERT never replaces a row: with a unique `user_id` it fails and the POST answers 500, and without one the table gains a second row, so the next `.single()` read fails. Neither outcome is modelled.
- The two message-log inserts of the chat route (the user's message and the reply) are not checked for errors by the code. The model makes each a boolean: the insert happened or it did not.
- Values in a JSON body that are not strings, or not the expected shape (a truthy non-string `message`, numbers for age and weight), are out of scope. Numbers are stored as the text they render to.
- A request body that is not JSON makes `req.json()` throw. In the chat route and the profile POST the call is inside the `try`, so the answer is 500 with the exception's message (the fallback texts apply only to an empty message). Only the preferences POST (app/api/userPreferences/route.ts:23) makes the call outside any handling. This path is not modelled.
- The chat page's `limit(50)` on the history load is left to the query. The loaded rows are an input.
- The session checks and redirects of the pages, the scrolling effect, the fade animation and everything rendered are UI only.
- The user id is fixed for each `ChatPage` instance. `useUserId` (app/hooks/useUserId.ts) starts as null and changes once to the session's id; the history load then runs again and a sign-in error shown before stays. That second load is not modelled. app/hooks/useUserId.ts is not part of this model.
- ChatView.ChatPage.InactivityTick: the 5-second period of the interval is not modelled. A tick is an event at any given time.
- ChatView.ClearMemory: the delete is modelled as returning its fault, so the exception path of `clearMemory` (the connection text) is reachable only through `ChatPage.FinishClear`.
- React's batching of state updates: each handler's updates apply together at its end. `sendMessage` and `clearMemory` are each split at their `await` into a begin and a finish method.
- Unicode: characters are code points. Trimming and `\s` use JavaScript's white-space set, and the length check counts UTF-16 code units, but no normalisation or case folding is modelled.
