# sitespot core, modelled in Dafny

sitespot is a job marketplace for construction sites. Its Express server has these parts:

- **zod input schemas:** users, workers, managers and companies, plus login, id-parameter and pagination.
- **Middleware:** `requireAuth`, `requireRole`, `validateRequest` and the CSRF error handler.
- **Session routes:** `/login`, `/logout` and `/me`.
- **Message routes:** they keep one conversation per pair of users.
- **Profile routes:** users, workers, managers and companies, each a guard chain over PostgreSQL tables described by a drizzle schema.

The React client adds a password checklist on the registration form and a small `zustand` store holding the signed-in user.

This project models each of those pieces in its own module.

- **Validators and middleware** are pure functions. Their contracts state exactly what each one accepts and what it answers.
- **The database** is a class `Database.Db`, one `seq` field per table plus the serial counter of each.
  - Its `Valid()` is the database's own constraints: serial keys, foreign keys, `NOT NULL`, the `CHECK`s and a unique email.
  - Each SQL statement a route issues is one method, specified by a pure function of the old table. A failed insert still consumes its serial value.
- **Route handlers** are methods over a `Db`. Each `ensures` lists the guard chain in the order the source runs it, with the new table contents for each outcome.
- **The client store** is a class with the store's three fields, proved against a pure transition function.

Modelling choices:

- **Foreign code is a parameter.** The hash function is an uninterpreted `string -> string`. The zod email and URL checks are a `Formats` record. The wall clock is an opaque `Timestamp` argument.
- **JavaScript values:**
  - An absent JSON field is `None`.
  - JavaScript truthiness is `TruthyInt` / `TruthyString`.
  - drizzle's rule that an `undefined` value in `.set` keeps the column is `Database.SetOpt`.
  - A string's `.length`, which zod's `.min`/`.max` and the registration form test, counts UTF-16 code units; it is `Common.Utf16Length`. The varchar widths of PostgreSQL count characters.
  - `Number(s)` is defined for decimal integer strings with surrounding white space. The empty string and an all-blank string are 0; every other string is `NaN`.
- **Session:** the express-session record is a small class `Auth.Session`, whose fields `/login` writes.

## Model

| member | source | states |
|---|---|---|
| Common.Utf16Units | src/shared/schemas/users.ts:24 | a character is one UTF-16 code unit below U+10000 and a surrogate pair above |
| Common.Utf16Length | src/shared/schemas/users.ts:24 | JavaScript's `.length` lies between the number of characters and twice it |
| Common.BmpLength | src/shared/schemas/users.ts:24 | without characters above U+FFFF, `.length` is the number of characters |
| Common.AstralLength | src/shared/schemas/users.ts:24 | characters above U+FFFF each count twice in `.length` |
| Common.AstralOverMax | src/shared/schemas/users.ts:24 | 51 characters above U+FFFF are refused by `max(100)` |
| SharedSchemas.RoleAccepted | src/shared/schemas/users.ts:3-12 | in an otherwise valid creation input, replacing the role keeps it accepted iff the new role is one of admin, worker, company, manager; any other string is refused |
| SharedSchemas.ClassOf | src/shared/schemas/users.ts:18 | a character is given a class only when it is in that class; it gets none iff it is outside the pattern's alphabet |
| SharedSchemas.ClassOfExact | src/shared/schemas/users.ts:18 | the four character classes of the pattern are disjoint |
| SharedSchemas.PasswordRule | src/shared/schemas/users.ts:14-23 | a password is accepted iff it has 8 or more characters and the set of classes its characters fall into is exactly {lowercase, uppercase, digit, special}: no other character, and none of the four missing |
| SharedSchemas.PasswordWitnesses | src/shared/schemas/users.ts:17-18 | each lookahead of the pattern holds iff some character of that class occurs |
| SharedSchemas.PasswordAccepted | src/shared/schemas/users.ts:17-18 | "Secret1!" satisfies the rule |
| SharedSchemas.PasswordWithoutUpperRefused | src/shared/schemas/users.ts:17-18 | a password without an uppercase letter is refused |
| SharedSchemas.PhoneDigits | src/shared/schemas/users.ts:7 | stripping the optional '+' removes at most one character |
| SharedSchemas.DigitCount | src/shared/schemas/users.ts:7 | the digit count never exceeds the length |
| SharedSchemas.DigitCountAll | src/shared/schemas/users.ts:7 | a string of digits has as many digits as characters |
| SharedSchemas.PhoneShape | src/shared/schemas/users.ts:7 | an accepted phone has 2 to 15 digits, at most one leading '+', and at most 16 characters |
| SharedSchemas.PhoneExamples | src/shared/schemas/users.ts:7 | international numbers and two-digit numbers are accepted; "+1", a leading 0 and 16 digits are refused |
| SharedSchemas.PasswordCharsLength | src/shared/schemas/users.ts:16-18 | the password alphabet is ASCII, so for an allowed password `.length` equals the number of characters |
| SharedSchemas.PasswordCharsInBmp | src/shared/schemas/users.ts:18 | every character of the password alphabet is below U+10000 |
| SharedSchemas.PasswordCharIsAscii | src/shared/schemas/users.ts:18 | each of the four classes holds only ASCII characters |
| SharedSchemas.CreateUserFitsColumns | src/shared/schemas/users.ts:11-31 | a validated create-user input fits the varchar widths of the users table |
| SharedSchemas.UpdateUserEmpty | src/shared/schemas/users.ts:33-42 | every update-user field is optional, so the empty object is accepted |
| SharedSchemas.ManagerIssues | src/shared/schemas/users.ts:44-49 | no issue is reported iff position has 1-100 UTF-16 code units (`.length`), companyId >= 1 and workSiteId >= 1 when present |
| SharedSchemas.ParseManagerUpdate | src/shared/schemas/users.ts:44-49 | parses iff the manager update is valid; returns the input unchanged; a rejection carries at least one issue, each with a one-field path |
| SharedSchemas.LowerChar | src/shared/schemas/users.ts:58 | the result is never uppercase, and non-uppercase characters are kept |
| SharedSchemas.ToLower | src/shared/schemas/users.ts:58 | lowercases character by character and keeps the length |
| SharedSchemas.LowerAll | src/shared/schemas/users.ts:58 | the `map` of `toLowerCase` over the array, element by element |
| SharedSchemas.ParseWorkerUpdate | src/shared/schemas/users.ts:51-62 | a worker update parses iff it has a skill, an availability from the enumeration, and all bounds hold, the string bounds counted in UTF-16 code units |
| SharedSchemas.ToLowerIdempotent | src/shared/schemas/users.ts:58 | lowercasing twice is lowercasing once |
| SharedSchemas.LowerAllIdempotent | src/shared/schemas/users.ts:58 | the availability transform applied twice equals applying it once |
| SharedSchemas.AvailabilityLowercase | src/shared/schemas/users.ts:4 | every availability value is already lowercase |
| SharedSchemas.WorkerTransformIsIdentity | src/shared/schemas/users.ts:55-58 | on a validated worker update the lowercase transform returns the input |
| SharedSchemas.WorkerParseIdempotent | src/shared/schemas/users.ts:51-62 | parsing the parsed worker update gives the same result |
| SharedSchemas.WorkerNeedsSkillAndAvailability | src/shared/schemas/users.ts:52-57 | no skills or no availability makes the parse fail |
| SharedSchemas.LoginAnyPassword | src/shared/schemas/users.ts:71-75 | login accepts every password string, and rememberMe is optional |
| SharedSchemas.LoginNeedsBothFields | src/shared/schemas/users.ts:71-75 | a login without an email or without a password is refused |
| SharedSchemas.CompanyUpdateFitsColumns | src/shared/schemas/users.ts:64-69 | an accepted company update fits the varchar(255) name and varchar(100) registration number columns |
| SharedSchemas.CompanyUpdateNeedsAllFields | src/shared/schemas/users.ts:64-69 | leaving out any of the four company fields is refused |
| ServerUserSchemas.SameRolesAndPatterns | src/server/validation/users.ts:3-22 | the server's role set, password pattern and phone pattern equal the shared ones |
| ServerUserSchemas.CreateUserAgreement | src/server/validation/users.ts:10-30 | the server schema accepts iff the shared one does and both names are present; so each server acceptance is a shared one |
| ServerUserSchemas.SharedAcceptsNamelessInput | src/server/validation/users.ts:23-24 | an input without names is accepted by the shared schema and refused by the server's |
| ServerUserSchemas.UpdateUserAgreement | src/server/validation/users.ts:32-41 | the two update schemas accept the same inputs, including the empty object |
| JsNumber.TrimStart | src/server/validation/idParam.ts:5 | a suffix of the input that does not start with white space |
| JsNumber.TrimEnd | src/server/validation/idParam.ts:5 | a prefix of the input that does not end with white space |
| JsNumber.DigitValue | src/server/validation/idParam.ts:5 | a digit's value is below 10 |
| JsNumber.DigitChar | src/server/validation/idParam.ts:5 | the digit character of d has value d |
| JsNumber.NatToDecimal | src/server/validation/idParam.ts:5 | the decimal form is a non-empty digit string that starts with 0 only for 0 |
| JsNumber.IntToDecimal | src/server/validation/idParam.ts:5 | the decimal form is non-empty |
| JsNumber.DecimalDigitsValue | src/server/validation/idParam.ts:5 | reading the decimal form back gives the number |
| JsNumber.ToNumber | src/server/validation/idParam.ts:5 | a blank string is 0; a number read from a non-blank string ends in a digit; NaN only for a non-blank string that is not all digits (decimal integers only, read exactly; see Left out) |
| JsNumber.NumberOr | src/server/routes/users/index.ts:16-17 | `n or d`: NaN and 0 give the default, any other number itself, so the result is 0 only when the default is |
| JsNumber.TrimUnpadded | src/server/validation/idParam.ts:5 | trimming leaves an unpadded string unchanged |
| JsNumber.ToNumberOfDecimal | src/server/validation/idParam.ts:5 | `Number` of the decimal form of n is n |
| JsNumber.LetterMakesNaN | src/server/validation/idParam.ts:5 | under the decimal-integer reading of `Number` modelled here, a string with a letter in its trimmed part is NaN (JavaScript itself reads "1e3", "0x10" and "Infinity" as numbers; see Left out) |
| IdParam.ParseIdParams | src/server/validation/idParam.ts:4-8 | accepts iff the id denotes a number > 0; an accepted id is returned unchanged; a rejection says "ID must be an integer" |
| IdParam.AcceptsPositive | src/server/validation/idParam.ts:5 | every positive decimal id is accepted unchanged |
| IdParam.RejectsNonPositive | src/server/validation/idParam.ts:5 | "0" and negative ids are rejected |
| IdParam.RejectsNonNumeric | src/server/validation/idParam.ts:5 | non-numeric ids are rejected, and so is the empty one |
| Pagination.ParsePagination | src/server/validation/pagination.ts:4-21 | parses iff neither field has an issue; a parsed limit is > 0; the issues are the limit's followed by the offset's |
| Pagination.Defaults | src/server/validation/pagination.ts:7-18 | a missing or empty limit and offset become 10 and 0 |
| Pagination.AcceptsValues | src/server/validation/pagination.ts:8-18 | a positive limit and any integer offset, negative included, are converted to their values |
| Pagination.RejectsNonPositiveLimit | src/server/validation/pagination.ts:8-10 | a limit of 0 or less is rejected with the limit message first |
| Pagination.RejectsLimitString | src/server/validation/pagination.ts:8-10 | any non-empty limit that is not a positive number is rejected with the limit message first |
| Pagination.RejectsNonNumericOffset | src/server/validation/pagination.ts:15-17 | a non-numeric offset with a valid limit is rejected with exactly the offset message |
| RegistrationForm.RegexTestFinds | src/client/components/auth/RegistrationForm.tsx:46-49 | `/[class]/.test(s)` holds iff some character of s is in the class |
| RegistrationForm.PasswordRequirements | src/client/components/auth/RegistrationForm.tsx:43-51 | each of the five flags holds iff its condition on the password holds; minLength counts `password.length` in UTF-16 code units |
| RegistrationForm.AstralPasswordLength | src/client/components/auth/RegistrationForm.tsx:45 | four characters above U+FFFF are eight code units and tick the length box |
| RegistrationForm.SchemaAndChecklist | src/client/components/auth/RegistrationForm.tsx:43-51 | the schema accepts iff all five flags hold and every character is allowed; so an accepted password meets the whole checklist |
| RegistrationForm.ChecklistDoesNotShowAlphabet | src/client/components/auth/RegistrationForm.tsx:43-51 | "Secret 1!" meets all five flags but is refused for its space |
| RegistrationForm.DefaultsAndOptions | src/client/components/auth/RegistrationForm.tsx:25-29 | the default role "worker" is a valid role; the default password meets no flag |
| RequireAuth.RequireAuth | src/server/middleware/requireAuth.ts:3-13 | passes iff the session has a truthy userId; otherwise 401 "Authentication required." |
| RequireAuth.RequireRole | src/server/middleware/requireAuth.ts:15-28 | passes iff the session is authenticated and its role is in roles; 401 without userId or role, 403 for another role; never an error |
| RequireAuth.RoleImpliesAuth | src/server/middleware/requireAuth.ts:15-28 | a caller that passes requireRole passes requireAuth |
| RequireAuth.MoreRolesStillPass | src/server/middleware/requireAuth.ts:22 | widening the role list never rejects a caller it passed |
| RequireAuth.EmptyRolesRejectAll | src/server/middleware/requireAuth.ts:22-25 | `requireRole([])` answers 403 to every authenticated caller |
| RequireAuth.RoleComesFromSession | src/server/middleware/requireAuth.ts:17-26 | two sessions with the same userId and role get the same decision |
| RequireAuth.AdminOnlyExample | src/server/middleware/requireAuth.ts:22-26 | an admin-only route refuses a worker with 403 and passes an admin |
| ValidateRequest.Request.constructor | src/server/middleware/validateRequest.ts:15-21 | the request holds the body, query and params it is given |
| ValidateRequest.ParsePart | src/server/middleware/validateRequest.ts:17-25 | a part without a schema passes unchanged |
| ValidateRequest.Pipeline | src/server/middleware/validateRequest.ts:15-37 | next() iff every configured part parses, and then every part is its parse; a part that fails to parse is left as it was; on a failure the outcome is the catch block's answer (`Failed`) for the first part that fails, in body, query, params order |
| ValidateRequest.Failed | src/server/middleware/validateRequest.ts:27-37 | a zod rejection is 400 with status "error", message "Invalid request data" and the errors; another error goes to next(error) |
| ValidateRequest.Validate | src/server/middleware/validateRequest.ts:10-39 | the request's new parts and the outcome are the ones of the body-query-params pipeline |
| ValidateRequest.AllPartsParsed | src/server/middleware/validateRequest.ts:17-26 | when every part parses, each is replaced by its parse and next() is called |
| ValidateRequest.NoSchemas | src/server/middleware/validateRequest.ts:17-26 | with no schemas the request is unchanged and passes |
| ValidateRequest.BodyFailureStops | src/server/middleware/validateRequest.ts:17-19 | a body failure leaves every part as it was and the later schemas are not consulted |
| ValidateRequest.QueryFailureKeepsBody | src/server/middleware/validateRequest.ts:20-22 | a query failure keeps the parsed body and ignores the params schema |
| ValidateRequest.ParamsFailureKeepsEarlierParts | src/server/middleware/validateRequest.ts:23-25 | a params failure keeps the parsed body and query |
| ValidateRequest.OutcomeKinds | src/server/middleware/validateRequest.ts:26-37 | next() iff no part fails; otherwise the first failing part decides: a ZodError gives 400 with that part's issues, any other error gives next(error); a 400 occurs exactly when the first failure is a ZodError |
| Csrf.Config | src/server/middleware/csrf.ts:5-19 | the secret from CSRF_SECRET or the fallback; the cookie name and header; httpOnly, strict, path "/"; signed iff COOKIE_SECRET is set; secure iff production; GET, HEAD and OPTIONS ignored |
| Csrf.HandleCsrfError | src/server/middleware/csrf.ts:28-42 | a "CSRFTokenError" gets 403 "Invalid CSRF token. Please try again."; any other error goes to next unchanged |
| Csrf.MutatingMethodsChecked | src/server/middleware/csrf.ts:17 | of the HTTP verbs, exactly POST, PUT, PATCH and DELETE are checked |
| Csrf.TokenOnlyFromHeader | src/server/middleware/csrf.ts:18 | the token comes from the x-csrf-token header and is absent without it |
| Csrf.SecretFallback | src/server/middleware/csrf.ts:7 | an unset CSRF_SECRET falls back to the built-in secret; an empty one is used as is |
| Auth.Session.constructor | src/server/auth/auth.ts:43-44 | the session holds the given userId and userRole |
| Auth.CharBytes | src/server/auth/auth.ts:27-30 | a character takes 1 to 4 UTF-8 bytes, 1 exactly when it is ASCII |
| Auth.Utf8Length | src/server/auth/auth.ts:27-30 | a string's byte length is between its length and four times its length |
| Auth.AsciiLength | src/server/auth/auth.ts:27-30 | an ASCII string has as many bytes as characters |
| Auth.NonAsciiLength | src/server/auth/auth.ts:27-30 | a non-ASCII character makes the byte length longer than the string |
| Auth.TimingSafeEqual | src/server/auth/auth.ts:27-30 | throws iff the byte lengths differ, and otherwise says whether the strings are equal |
| Auth.LoginOutcome | src/server/auth/auth.ts:11-54 | unknown email gives 401; a byte-length mismatch goes to next(error); 200 with the safe user iff the digest equals the stored hash; the mismatch body carries both hashes; a known email whose digest has the stored hash's byte length but differs gives exactly 401 with `{ hash, saved, isSame: false, error: "Invalid credentials" }` |
| Auth.Login | src/server/auth/auth.ts:11-54 | the response is LoginOutcome; the session gets the user's id and role on 200, and is unchanged otherwise |
| Auth.LengthMismatchThrows | src/server/auth/auth.ts:27-30 | a stored hash whose byte length differs from the digest's makes login an error, not a 401 |
| Auth.Logout | src/server/auth/auth.ts:57-65 | a failing destroy gives 500 "Could not log out"; otherwise the cookie is cleared and "Logged out successfully" is answered |
| Auth.Me | src/server/auth/auth.ts:68-91 | 401 with no session user, 404 for an unknown user, else 200 with the user without its hash |
| Auth.FindOwnUser | src/server/auth/auth.ts:76-81 | in a table with unique keys a row is found by its own id |
| Auth.LoginThenMe | src/server/auth/auth.ts:43-44 | after a successful login, /me answers the same safe user |
| Auth.LoginAuthenticates | src/server/auth/auth.ts:43-44 | after a successful login the session passes requireAuth, and passes requireRole for any list holding the user's role |
| Messages.ParticipantCheckHolds | src/server/routes/messages/index.ts:62-71 | a conversation found by the sorted pair always passes the participant check |
| Messages.PairKeySymmetric | src/server/routes/messages/index.ts:50-52 | the sorted pair of (a, b) and (b, a) is the same; min < max iff a != b |
| Messages.SelfPairAbsent | src/server/db/schema.ts:204-207 | no stored conversation pairs a user with themselves |
| Messages.FindAfterTouch | src/server/routes/messages/index.ts:91-97 | updating lastMessage keeps which pairs have a conversation and which conversation they have |
| Messages.FindAfterAppend | src/server/routes/messages/index.ts:79-89 | a conversation inserted for a pair without one is then found for it |
| Messages.OnePerPairTouch | src/server/routes/messages/index.ts:91-97 | the update keeps one conversation per pair |
| Messages.OnePerPairAppend | src/server/routes/messages/index.ts:79-89 | inserting for a pair without a conversation keeps one conversation per pair |
| Messages.FoundIsStored | src/server/routes/messages/index.ts:54-59 | the found conversation's id is a stored id |
| Messages.StartConversation | src/server/routes/messages/index.ts:78-89 | a self pair breaks the unique_participants check and changes nothing; otherwise a new active conversation with the content as lastMessage is appended and found for the pair |
| Messages.ResumeConversation | src/server/routes/messages/index.ts:90-98 | the found conversation gets the content as lastMessage, and nothing else changes |
| Messages.OpenConversation | src/server/routes/messages/index.ts:54-98 | finds or creates the conversation of the sorted pair, keeping one per pair; a serial is drawn iff the pair had none |
| Messages.Deliver | src/server/routes/messages/index.ts:54-110 | a conversation serial is drawn iff the pair had no conversation, a message serial iff the users differ; a self send breaks unique_participants with nothing written; otherwise the pair's conversation is created or touched, and exactly one message (sender, receiver, conversation, content) is appended, or the content's NOT NULL fails after the conversation was written |
| Messages.Send | src/server/routes/messages/index.ts:35-114 | an absent id or a missing user gives 400 and an inactive conversation raises, each with nothing written and no serial drawn; a self send fails after drawing a conversation serial; otherwise the conversation is created (drawing a serial) or touched, one message serial is drawn and one message appended with 200; one conversation per pair is kept |
| Messages.MarkReadOnlyThatMessage | src/server/routes/messages/index.ts:138-142 | marking read sets readAt on the messages with that id only |
| Messages.MarkRead | src/server/routes/messages/index.ts:132-148 | the table becomes MessagesRead, and the response is 204 with the updated rows |
| Messages.Unread | src/server/routes/messages/index.ts:156-158 | exactly the messages to that user without readAt |
| Messages.UnreadCount | src/server/routes/messages/index.ts:150-165 | 200 with a count equal to the number of table positions holding a message to the user without readAt |
| Messages.UnreadAppend | src/server/routes/messages/index.ts:156-158 | the unread list of a table with one more row gains that row iff it is unread for the user |
| Messages.UnreadPositionsAppend | src/server/routes/messages/index.ts:156-158 | the unread positions of a table with one more row gain that row's position iff it is unread for the user |
| Messages.UnreadCountsPositions | src/server/routes/messages/index.ts:156-161 | the unread list has one element per unread position of the table |
| Messages.ReadAbsentId | src/server/routes/messages/index.ts:138-142 | marking an absent id changes nothing |
| Messages.MarkReadCount | src/server/routes/messages/index.ts:138-160 | marking a message read lowers the user's unread count by one when it was unread for them, and otherwise keeps it |
| Messages.Chats | src/server/routes/messages/index.ts:174-179 | exactly the conversations the user takes part in |
| Messages.ChatsRoute | src/server/routes/messages/index.ts:168-186 | 200 with `{ usersConversations }` holding exactly the conversations the user takes part in |
| Messages.Between | src/server/routes/messages/index.ts:19-27 | exactly the messages from one party to the other, in either direction |
| Messages.ChatHistory | src/server/routes/messages/index.ts:10-33 | always 200 or next(error); every returned message is between the two parties; without query values the answer is exactly the first 10 of the newest-first history |
| Messages.BetweenNewestFirst | src/server/routes/messages/index.ts:21 | a message stored last heads the history of its two parties (`orderBy desc(createdAt)`) |
| Messages.ChatHistorySymmetric | src/server/routes/messages/index.ts:23-26 | the history of (me, them) equals that of (them, me) |
| Messages.BetweenSymmetric | src/server/routes/messages/index.ts:23-26 | the message filter is symmetric in the two parties |
| Messages.UnorderedPairUnique | src/server/routes/messages/index.ts:50-89 | with one conversation per pair and ordered participants, no two conversations share an unordered pair |
| Schema.ToSafe | src/server/db/schema.ts:31 | the safe user keeps the key, the email and the role |
| Schema.SafeUserDropsOnlyHash | src/server/db/schema.ts:31 | two users have the same safe user iff they differ at most in passwordHash |
| Schema.NewUser | src/server/db/schema.ts:15-28 | a new user is inactive, with no last login or avatar, created and updated now |
| Schema.NewConversation | src/server/db/schema.ts:187-208 | a new conversation is active, with the given participants |
| Schema.ReviewTrigger | src/server/db/schema.ts:325-366 | the trigger raises nothing iff a worker-to-manager review joins a contract with the reviewer as worker and the reviewee as manager, and a manager-to-worker review the other way round; other types always pass |
| Schema.ReviewWrite | src/server/db/schema.ts:146-169 | a review is stored iff its rating is in 1..5 and it passes the trigger for its type; the trigger's exception comes before the rating_check violation |
| Schema.FindContract | src/server/db/schema.ts:333-339 | the contract found has that id; none is found only when no row has it |
| Schema.FindWorkerById | src/server/db/schema.ts:335 | the worker profile found has that id; none only when no row has it |
| Schema.FindManagerById | src/server/db/schema.ts:336 | the manager profile found has that id; none only when no row has it |
| Schema.JoinIsLookup | src/server/db/schema.ts:333-340 | with unique keys, the trigger's join exists iff looking the contract, worker and manager up by key gives those users |
| Schema.JoinFindsRows | src/server/db/schema.ts:333-340 | a join that exists is found by key lookups |
| Schema.ReviewDirectionsMirror | src/server/db/schema.ts:331-357 | a manager-to-worker review passes iff the same review with the two users swapped passes as worker-to-manager |
| Schema.SerialAppend | src/server/db/schema.ts:16 | appending the next serial value keeps the keys increasing |
| Schema.FindUser | src/server/db/schema.ts:16 | a user is found iff its id is a key, and the row found has it |
| Schema.FindUserByEmail | src/server/db/schema.ts:17 | the row found has the email; none only when no row has it |
| Schema.UserIdsAppend | src/server/db/schema.ts:16 | appending a user appends its key |
| Schema.WorkerIdsAppend | src/server/db/schema.ts:34 | appending a profile appends its key |
| Schema.CompanyIdsAppend | src/server/db/schema.ts:49 | appending a company appends its key |
| Schema.ManagerIdsAppend | src/server/db/schema.ts:74 | appending a manager profile appends its key |
| Schema.ConversationIdsAppend | src/server/db/schema.ts:190 | appending a conversation appends its key |
| Schema.MessageIdsAppend | src/server/db/schema.ts:172 | appending a message appends its key |
| Database.SetOpt | src/server/routes/users/index.ts:96-101 | a defined value overwrites the column, an undefined one keeps it |
| Database.Window | src/server/routes/users/index.ts:19-25 | LIMIT/OFFSET: a negative offset is an error; otherwise at most limit consecutive rows starting at offset |
| Database.ListWindow | src/server/routes/users/index.ts:16-17 | `Number(x) or 10` and `Number(x) or 0`: absent, non-numeric or zero values act as the defaults (the first 10 rows); such a limit returns at most 10 rows, such an offset starts at the first row |
| Database.WindowFromStart | src/server/routes/users/index.ts:19-25 | a window at offset 0 is a prefix of the rows |
| Database.ListWindowNumbers | src/server/routes/users/index.ts:16-17 | a nonzero numeric limit and a numeric offset are used as they are |
| Database.ListWindowNegativeLimit | src/server/routes/users/index.ts:16-25 | `?limit=-1` reaches the database and fails with the LIMIT error |
| Database.ChangeUser | src/server/routes/users/index.ts:94-103 | an update keeps the key, the email and the password hash |
| Database.ChangeWorker | src/server/routes/users/workers.ts:125-140 | an update keeps the key and the user |
| Database.ChangeCompany | src/server/routes/users/companies.ts:93-107 | an update keeps the key and the owner |
| Database.ChangeManager | src/server/routes/users/managers.ts:105-114 | an update keeps the key and the user |
| Database.MessagesWithId | src/server/routes/messages/index.ts:138-142 | the returned rows are exactly those with that id |
| Database.FindWorkerOf | src/server/routes/users/workers.ts:48-51 | the profile found belongs to the user; none iff no row does |
| Database.FindManagerOf | src/server/routes/users/managers.ts:81-83 | the profile found belongs to the user; none iff no row does |
| Database.FindCompany | src/server/routes/users/companies.ts:28-30 | found iff the id is a key, and the row found has it |
| Database.FindConversation | src/server/routes/messages/index.ts:54-59 | the conversation found has that pair; none iff no row has it |
| Database.UsersWhereId | src/server/routes/users/index.ts:94-103 | the rows with the key take the change; every other row, every key and every email stays |
| Database.WorkersWhereUser | src/server/routes/users/workers.ts:125-140 | the user's rows take the change; every other row, and every row's key and user, stays |
| Database.CompaniesWhereId | src/server/routes/users/companies.ts:93-107 | the row with the key takes the change; every other row, and every key and owner, stays |
| Database.ManagersWhereUser | src/server/routes/users/managers.ts:105-114 | the user's rows take the change; every other row, and every key and user, stays |
| Database.ConversationsTouched | src/server/routes/messages/index.ts:91-97 | only lastMessage and lastMessageAt of the keyed row change; lastMessage only when defined |
| Database.MessagesRead | src/server/routes/messages/index.ts:138-142 | only readAt of the messages with the key changes, to the given time |
| Database.UsersWhereIdFrame | src/server/routes/users/index.ts:94-103 | an update by key keeps the length, the keys and every other row |
| Database.UpdatedUserFound | src/server/routes/users/index.ts:94-103 | after the update the user is found with the change applied |
| Database.UpdatedCompanyFound | src/server/routes/users/companies.ts:93-107 | after the update the company is found with the change applied |
| Database.UpdatedWorkerFound | src/server/routes/users/workers.ts:125-140 | after the update the user's first profile is the changed one |
| Database.UpdatedManagerFound | src/server/routes/users/managers.ts:105-114 | after the update the user's first profile is the changed one |
| Database.ManagerKeyError | src/server/db/schema.ts:73-84 | a manager row breaks no foreign key iff its user, company and optional site exist |
| Database.ManagersKeyError | src/server/db/schema.ts:73-84 | an updated table breaks no foreign key iff every row's keys exist |
| Database.UserInsertError | src/server/db/schema.ts:15-28 | a user insert succeeds iff email, hash and role are given and the email is new |
| Database.ConversationInsertError | src/server/db/schema.ts:187-208 | a conversation insert succeeds iff one < two and both users exist |
| Database.MessageInsertError | src/server/db/schema.ts:171-185 | a message insert succeeds iff it has content and its users and conversation exist |
| Database.UsersOkRaise | src/server/db/schema.ts:16 | a consumed serial value keeps the users table valid |
| Database.UsersOkAppend | src/server/db/schema.ts:15-28 | appending a user with the next key and a new email keeps the table valid |
| Database.UserReferencesKept | src/server/db/schema.ts:35-37 | a new user keeps every foreign key of the other tables valid |
| Database.Db.constructor | src/server/db/schema.ts:15-208 | the empty database is valid |
| Database.Db.InsertUser | src/server/db/schema.ts:15-28 | consumes a serial value; fails iff UserInsertError says so, changing nothing else; otherwise appends NewUser |
| Database.Db.SkipUserKey | src/server/db/schema.ts:16 | consumes a serial value and keeps the database valid |
| Database.Db.AppendUser | src/server/db/schema.ts:15-28 | appends a user with the next key and a new email |
| Database.Db.UpdateUsers | src/server/routes/users/index.ts:94-103 | the table becomes UsersWhereId and the returned row is the changed user, if any |
| Database.Db.InsertWorker | src/server/db/schema.ts:33-46 | consumes a serial value; fails iff the user does not exist; otherwise appends the profile with isPublic defaulting to true |
| Database.Db.UpdateWorkers | src/server/routes/users/workers.ts:125-140 | the table becomes WorkersWhereUser and the first changed row is returned |
| Database.Db.InsertCompany | src/server/db/schema.ts:48-58 | consumes a serial value; fails iff the owner does not exist; otherwise appends an unverified company |
| Database.Db.UpdateCompanies | src/server/routes/users/companies.ts:93-107 | the table becomes CompaniesWhereId and the changed row is returned |
| Database.Db.InsertManager | src/server/db/schema.ts:73-84 | consumes a serial value; fails on a foreign-key error with the table unchanged; otherwise appends the row |
| Database.Db.UpdateManagers | src/server/routes/users/managers.ts:105-114 | the table becomes ManagersWhereUser unless a foreign key breaks, and the first changed row is returned |
| Database.Db.InsertConversation | src/server/db/schema.ts:187-208 | consumes a serial value; fails iff ConversationInsertError says so; otherwise appends NewConversation |
| Database.Db.TouchConversation | src/server/routes/messages/index.ts:91-97 | the table becomes ConversationsTouched |
| Database.Db.InsertMessage | src/server/db/schema.ts:171-185 | consumes a serial value; fails iff MessageInsertError says so; otherwise appends the unread message |
| Database.Db.MarkMessageRead | src/server/routes/messages/index.ts:138-142 | the table becomes MessagesRead, and the updated rows are returned |
| Workers.NewWorker | src/server/routes/users/workers.ts:53-68 | the new profile has the serial key and the user, and isPublic defaults to true |
| Workers.PostWorker | src/server/routes/users/workers.ts:25-72 | 400, 404, 409 in that order, each changing nothing and drawing no serial; otherwise exactly one profile appended with 201 and one serial drawn, and one profile per user is kept |
| Workers.FoundAfterInsert | src/server/routes/users/workers.ts:48-68 | a profile appended for a user without one is that user's profile, and one profile per user is kept |
| Workers.PutWorker | src/server/routes/users/workers.ts:98-144 | 404 for an unknown user, 404 for a user without a profile, each changing nothing; otherwise that user's rows get the defined columns, 200 with the changed profile |
| Workers.UpdateTouchesOnlyThatUser | src/server/routes/users/workers.ts:125-138 | the update keeps the length and every other user's rows |
| Workers.UndefinedFieldsKept | src/server/routes/users/workers.ts:125-138 | an undefined body field keeps its column, a defined one overwrites it, and an empty body changes nothing |
| Managers.NewManager | src/server/routes/users/managers.ts:48-57 | the new profile has the serial key, the user and the company |
| Managers.PostManager | src/server/routes/users/managers.ts:29-75 | 400, then 404 user, then 404 company, changing nothing and drawing no serial; then the transaction, which draws one serial whether or not it commits; the profile is inserted exactly when the user becomes a manager |
| Managers.CreateManager | src/server/routes/users/managers.ts:47-71 | one serial is drawn; a foreign-key error changes neither table; otherwise one profile appended, the role set to "manager", and 201 with both rows |
| Managers.RoleWritten | src/server/routes/users/managers.ts:59-66 | after the role update the user is found as a manager |
| Managers.RepeatedPostDuplicates | src/server/routes/users/managers.ts:29-69 | a second POST for a user with a profile breaks one-profile-per-user, and the first profile stays the one found |
| Managers.FindPrefix | src/server/routes/users/managers.ts:81-83 | appending a row does not change which profile is found first |
| Managers.PathUserId | src/server/routes/users/managers.ts:102 | a path id that passed idParamSchema is a positive number |
| Managers.PutManager | src/server/routes/users/managers.ts:93-127 | 401 before validation, then 400 for the body, then for the params; a foreign-key error, 404 without a profile, or 200 with the changed profile |
| Managers.NoRowsUnchanged | src/server/routes/users/managers.ts:113-119 | an update that selects no row changes nothing |
| Companies.GetCompany | src/server/routes/users/companies.ts:24-41 | 404 "Company not found." iff there is no such company; otherwise 200 with it |
| Companies.NewCompany | src/server/routes/users/companies.ts:68-77 | the new company has the serial key, the owner and the name, and is unverified |
| Companies.PostCompany | src/server/routes/users/companies.ts:43-84 | 400 without userId or companyName, 404 for an unknown user, each changing nothing and drawing no serial; otherwise exactly one company appended with 201 and one serial drawn |
| Companies.UpdateCompany | src/server/routes/users/companies.ts:93-112 | no row with the id gives 404 and no change; otherwise the row is changed and returned with 200 |
| Companies.NoCompanyUnchanged | src/server/routes/users/companies.ts:109-112 | an update of an absent id changes nothing |
| Companies.PutCompany | src/server/routes/users/companies.ts:86-118 | updates only the four detail columns, keeping key, owner and verification; 404 for a missing company |
| Companies.VerifyCompany | src/server/routes/users/companies.ts:120-142 | sets verifiedAt of that company only; 404 for a missing company |
| Companies.UpdatesTouchTheirColumns | src/server/routes/users/companies.ts:93-130 | other rows are unchanged; a detail update keeps key, owner and verification; verification changes only verifiedAt |
| Companies.CompaniesOfUserGrow | src/server/routes/users/companies.ts:68-79 | every successful POST adds a company to the user, so there is no per-user uniqueness |
| Companies.CompaniesOfUser | src/server/routes/users/companies.ts:68-79 | exactly the user's companies: every returned row is in the table with that owner, and every such row of the table is returned |
| UserRoutes.SafeRows | src/server/routes/users/index.ts:22-24 | every row without its hash, in order |
| UserRoutes.ListUsers | src/server/routes/users/index.ts:14-30 | by default the first 10 safe rows; an error iff the effective limit or offset is negative; otherwise row i is the safe form of table row offset + i; a falsy limit gives at most 10 rows |
| UserRoutes.ListHidesHashes | src/server/routes/users/index.ts:22-24 | tables that differ only in password hashes list the same |
| UserRoutes.FindCompanyOf | src/server/db/schema.ts:211-226 | the company found belongs to the user; none iff no row does |
| UserRoutes.GetUser | src/server/routes/users/index.ts:32-64 | 404 "User not found" iff there is no such user; otherwise the safe user with its profiles |
| UserRoutes.FindUserSameButHashes | src/server/routes/users/index.ts:42-46 | a lookup in tables differing only in hashes finds the same safe user |
| UserRoutes.GetHidesHashes | src/server/routes/users/index.ts:44-46 | tables that differ only in password hashes answer GET the same |
| UserRoutes.CreateUser | src/server/routes/users/index.ts:66-87 | as written: one serial is drawn even when the insert fails; the password is stored verbatim as passwordHash, and 201 returns the full row; a constraint error goes to next(error) |
| UserRoutes.FindByOwnEmail | src/server/db/schema.ts:17 | with unique emails a row is found by its own email |
| UserRoutes.PlaintextUserCannotLogIn | src/server/routes/users/index.ts:75-76 | a user stored with its plaintext password can never log in: the login is not a 200, and is an error unless the password has 64 bytes |
| UserRoutes.DigestIsNotPlain | src/server/utils/passwordHash.ts:4-11 | a 64-character hex digest differs from a password with an uppercase letter |
| UserRoutes.SignUpThenLogInFails | src/server/routes/users/index.ts:66-87 | signing up as "ann@example.com" with "Secret1!" and then logging in fails |
| UserRoutes.CreateUserHashed | src/server/routes/users/index.ts:66-87 | corrected: draws one serial, stores hash(password), answers 201 with the safe user, and the new user can log in |
| UserRoutes.HashedUserCanLogIn | src/server/auth/auth.ts:27-49 | a user stored with hash(password) logs in with that password and gets 200 with the safe user |
| UserRoutes.PutUser | src/server/routes/users/index.ts:89-113 | 404 "User not found." with no change; otherwise only firstName, lastName, phone (when defined) and updatedAt change |
| UserRoutes.NoUserUnchanged | src/server/routes/users/index.ts:105-108 | an update of an absent id changes nothing |
| UserRoutes.DeleteUser | src/server/routes/users/index.ts:115-133 | a soft delete: row count and keys kept; 404 for a missing user; otherwise isActive becomes false and "User deactivated successfully." is answered |
| AuthStore.Apply | src/client/hooks/useAuthStore.ts:19-26 | login sets user, token and isAuthenticated; logout clears all three |
| AuthStore.RunStaysConsistent | src/client/hooks/useAuthStore.ts:16-26 | from a consistent state, every run keeps isAuthenticated iff a user is set |
| AuthStore.LastActionDecides | src/client/hooks/useAuthStore.ts:19-26 | because every action writes every field, a run ends in the state its last action sets |
| AuthStore.LogoutIdempotent | src/client/hooks/useAuthStore.ts:26 | logging out twice is logging out once, back at the initial state |
| AuthStore.SecondLoginReplaces | src/client/hooks/useAuthStore.ts:19-25 | a second login replaces the first one's user and token |
| AuthStore.Store.constructor | src/client/hooks/useAuthStore.ts:16-18 | the store starts with no user, no token and isAuthenticated false |
| AuthStore.Store.Login | src/client/hooks/useAuthStore.ts:19-25 | the store's new fields are Apply of LogIn, and consistency is kept |
| AuthStore.Store.Logout | src/client/hooks/useAuthStore.ts:26 | the store's new fields are Apply of LogOut, the initial state |

## Left out

- `Number()` parsing is restricted to optionally signed decimal integers with JavaScript white space around them. Exponents, fractions, hex literals and `Infinity` all parse as `NaN` here. Digits are read exactly as unbounded integers, whereas JavaScript rounds to the nearest double above 2^53 (so "12345678901234567891" is not read exactly there).
- Path parameters of the route handlers are taken as integers. Non-numeric path ids, which become `NaN` in the source, are not modelled.
- zod's `.email()` and `.url()` are uninterpreted predicates in a `Formats` record. zod's wording of its issues is not modelled; only the custom messages are.
- JSON `null` and values of the wrong type in request bodies are not modelled. An absent field is `None`, and every present field has its declared type.
- Concurrency, `async` sequencing, and the database connection are not modelled. Each handler runs alone against the tables.
- The CSRF token generation and double-submit check inside `csrf-csrf`, rate limiting, JWT and "remember me" are library code. Only the configuration and `handleCSRFError` are modelled.
- `GET /messages/:id` is a one-line lookup with no decision logic and is not modelled.
- `GET /` of workers, managers and companies are windows like `UserRoutes.ListUsers` and are not modelled separately.
- `GET /workers/:id` and `DELETE /users/:id` send a second response when no row is found (a missing `return`). The model keeps only the first response, so `UserRoutes.DeleteUser` answers 404 alone. `GET /workers/:id` is not modelled.
- `GET /managers/:id` answers one 404 when the user has no manager profile, and never answers when there is one: the found profile is not sent. It is not modelled.
- Rows are assumed to be returned in insertion order. This affects `messages.createdAt` ordering, and the "first" related row of `usersRelations` and `.returning()`. PostgreSQL does not guarantee this order.
- The ORM's error for an empty `.set({})` is not modelled. An update whose fields are all undefined writes nothing and still returns the row.
- varchar length limits of the tables are not enforced on writes. `SharedSchemas.CreateUserFitsColumns` shows that validated input fits them.
- The review-participant trigger is modelled as the predicate `Schema.ReviewTrigger` on a written review. Its SQL, and the jobs, applications, contracts and reviews routes, are not modelled.
- `Auth.TimingSafeEqual` compares UTF-8 byte lengths. It takes UTF-8 encoding to be injective and ignores unpaired surrogates.
- `Auth.Logout`: the session store's failure is a parameter, and the session is left unchanged when the destroy fails.
- The bodies of `POST /managers` and `PUT /users/:id` include the user's `passwordHash`, as the source returns full rows. The model returns the row as is.
- The `persist` middleware of the auth store (localStorage under "auth-storage") is not modelled. The store starts from its initial state.
- `src/server/utils/passwordHash.ts` is SHA-256 of the password and a fixed salt, a foreign call. It is modelled as any deterministic `string -> string`. `UserRoutes.PlaintextUserCannotLogIn` assumes its result is a 64-character lowercase hex digest. The file's comment says the salt uses the user's id; the code uses only a fixed string.
- `SharedSchemas.ManagerInput` types `companyId` and `workSiteId` as integers. zod's `z.number().min(1)` also accepts fractions such as 1.5; those are not modelled.
- `SharedSchemas.ToLower` lowercases the ASCII letters only. JavaScript's `toLowerCase` also maps other Unicode letters; the availability values it is applied to are ASCII.
- `Messages.MarkRead` returns the updated rows as the 204 body, as the handler passes them to `res.json`. Express sends no body with a 204, so a client sees none.
- `Messages.Send` takes an absent `senderId` or `receiverId` to find no user, so the request is answered 400. In the source, `checkUserExists(undefined)` passes `undefined` to drizzle's `eq`, so this leans on the ORM treating it as a lookup that matches no row.
- `Auth.Login` takes the email and password as strings. A request body without one of them gives `undefined` in the source, which is not modelled.
- `SharedSchemas.PasswordWithoutUpperRefused` gives one concrete refused password; the full acceptance condition is `SharedSchemas.PasswordRule`.

## Findings

| source | as written | input that shows it | evidently intended | confidence | as-written member | corrected member |
|---|---|---|---|---|---|---|
| src/server/routes/users/index.ts:75-76 with src/server/auth/auth.ts:27-30 | `POST /users` stores the plaintext password as `passwordHash`; `/login` compares `hashPassword(password)` with it | `POST /users` with email "ann@example.com" and password "Secret1!", then `/login` with the same: the 64-byte digest and the 8-byte password differ in length, so `timingSafeEqual` throws | store `hashPassword(password)` (the source's own TODO), so that the new user can log in | not executed | UserRoutes.PlaintextUserCannotLogIn | UserRoutes.CreateUserHashed |
