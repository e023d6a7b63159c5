# Task tracker: a Dafny model

This project models the core of a small task tracker. The server keeps two
SQLite tables, `users` and `tasks`, behind an Express API:

- `POST /signup` and `POST /signin` register users and issue one-hour JSON web tokens;
- the `authenticateToken` middleware admits a request carrying `Authorization: Bearer <token>`;
- `GET`, `POST`, `PUT` and `DELETE /tasks` list (paged and filtered), create, update and delete the caller's own tasks.

The browser side has three React pages. The task dashboard filters the
current page locally, pages through the list and validates its create form.
The sign-up and login pages validate their forms before posting them.

How the model is laid out:

- `Server.Store` is a class. Its fields are the two tables, as sequences in
  row order, and their AUTOINCREMENT counters. Signup, create, update and
  delete are methods that change those fields.
- Sign-in (`Server.Signin`), the middleware (`Auth.Authenticate`) and the
  list handler (`Listing.ListTasks`) only read state, so they are functions
  of the table rows.
- bcrypt and jsonwebtoken are stand-ins in `Crypto`:
  - a digest keeps its pre-image, so `Compare` is exact;
  - a token is the text `userId.iat.exp.mac` with a keyed checksum as its
    signature;
  - verification checks the shape, then the signature, then whether the
    clock has reached `exp = iat + 3600`.
- Each React page is a class with one field per `useState`. Its handlers are
  methods that state the component's whole new state. The pure parts are
  functions: `filteredTasks`, the list updates, and the form validators'
  specifications.
- JavaScript values are modelled where the code depends on them:
  - `''`, `undefined` and `null` are falsy (`Text.Truthy`), and `a || b` is `Text.Or`;
  - `parseInt(x) || d` treats `NaN` and `0` alike (`Listing.IntOr`);
  - `split(' ')[1]` may be `undefined`;
  - `Math.ceil` also works for a negative page size;
  - SQLite's `LIMIT`/`OFFSET` treats a negative limit as no limit and a
    negative offset as 0.

In these places the code behaves in ways its messages and schema do not
announce, and the model does what the code does:

- **Status values.** No handler checks that a status is one of the three
  values. An unknown status reaches the `CHECK` constraint in the `INSERT` or
  the `UPDATE`, and the reply is a 500 (`InternalError`), not a 400.
- **Duplicate e-mail.** Signup checks only the name. A duplicate e-mail
  violates `email UNIQUE` at the `INSERT`, and the reply is a 500
  (`SignupFailed`).
- **Status filter.** Any `statusFilter` other than exactly `All` is bound
  into `status = ?`. A missing one is bound as NULL, which matches nothing
  (`Listing.MissingFilterFindsNothing`).
- **Row order.** The list queries have no `ORDER BY`. The model returns rows
  in table order, which here is id order.
- **Sign-in errors.** A bad name and a bad password get distinct replies
  (`InvalidUser` and `InvalidPassword`), as the code sends them.

## Model

| member | source | states |
|---|---|---|
| Text.Split | task-tracker--backend/server.js:105 | `split(' ')` gives at least one piece and no piece contains the separator |
| Text.JoinSplit | task-tracker--backend/server.js:105 | joining the pieces of a split with the separator gives the original header back |
| Text.TrimEmptyIff | task-tracker--frontend/src/components/SignUp/index.js:32 | `s.trim()` is empty exactly when `s` is all white space |
| Text.TrimsToEmpty | task-tracker--frontend/src/components/Login/index.js:30 | the test `!s.trim()` holds exactly when `s` is all white space |
| Text.ToLower | task-tracker--frontend/src/components/TasksDashboard/index.js:70-71 | `toLowerCase` keeps the length, lowers each letter and leaves no capital |
| Text.ContainsIff | task-tracker--frontend/src/components/TasksDashboard/index.js:70-71 | `includes` holds exactly when the query occurs at some position |
| Text.ParseDigitsOfDigits | task-tracker--backend/server.js:92 | a number written in decimal reads back as the same number (the token's fields survive encoding) |
| Crypto.Hash | task-tracker--backend/server.js:70 | the digest uses cost 13 and accepts the password it was made from |
| Crypto.CompareHash | task-tracker--backend/server.js:88 | `compare(candidate, hash(password))` holds exactly when the two are equal, whatever the salt |
| Crypto.Sign | task-tracker--backend/server.js:92 | a signed token is non-empty and has no space, so it survives the `Bearer` header |
| Crypto.Verify | task-tracker--backend/server.js:111-117 | a verified token has not yet expired, and only a four-part token verifies or is reported expired |
| Crypto.VerifySign | task-tracker--backend/server.js:92 | a token signed at `now` verifies to `{userId, now, now + 3600}` before `now + 3600` and is `Expired` from then on |
| Auth.BearerToken | task-tracker--backend/server.js:105 | the extracted token never contains a space |
| Auth.Authenticate | task-tracker--backend/server.js:97-122 | 401 "no header" exactly when the header is falsy; 401 "no token" exactly when the header is truthy and its second word is falsy; otherwise the caller is let through as the token's user id when the token verifies, and gets 403 when it does not |
| Auth.BearerTokenOf | task-tracker--backend/server.js:105 | the token is the word after the first space, whatever follows the next space |
| Auth.BearerTokenWithoutSpace | task-tracker--backend/server.js:105-109 | a header without a space carries no token |
| Auth.BearerHeader | task-tracker--frontend/src/components/TasksDashboard/index.js:40 | the header `Bearer <token>` that the dashboard sends yields exactly that token |
| Auth.AuthenticateSigned | task-tracker--backend/server.js:92-117 | a token the server signed admits its user until its hour is up and is refused with 403 after |
| Listing.Matching | task-tracker--backend/server.js:138-146 | the selected rows are exactly the caller's rows with the filter's status (or all, for `'All'`), kept in order |
| Listing.Window | task-tracker--backend/server.js:140 | `LIMIT l OFFSET o` starts at the offset (0 when negative) and returns exactly `l` rows, or every row to the end when `l` is negative or too few remain; each is the row at its position after the offset |
| Listing.CeilDiv | task-tracker--backend/server.js:158 | `Math.ceil(n / d)` is the least integer not below the quotient, for positive and negative `d` |
| Listing.ListTasks | task-tracker--backend/server.js:126-163 | `total` counts the matching rows; the page is the window of them at `(page - 1) * perPage`; no row of another user or status is returned; `totalPages` is the ceiling |
| Listing.DefaultsWhenMissing | task-tracker--backend/server.js:127-128 | each of `perPage` and `page` that is absent, not a number or 0 is replaced by 4 and 1 respectively, independently of the other |
| Listing.PaginationPartition | task-tracker--backend/server.js:126-163 | with a positive page size, pages 1 to `totalPages` concatenated are exactly the matching rows, in order, each once |
| Listing.PageIsWindow | task-tracker--backend/server.js:127-140 | page `k` of a positive page size is the window of the matching rows that starts after `(k - 1) * perPage` of them |
| Listing.PageBeyondLast | task-tracker--backend/server.js:130-158 | a page after the last is empty |
| Listing.AllCountsOwnTasks | task-tracker--backend/server.js:138-139 | with `'All'`, `total` is the number of the caller's tasks |
| Listing.MissingFilterFindsNothing | task-tracker--backend/server.js:129-146 | with no `statusFilter`, nothing is counted or returned |
| Server.FindUserByName | task-tracker--backend/server.js:84 | no user is found exactly when the name is not taken; a found user is a row with that name |
| Server.Signin | task-tracker--backend/server.js:82-94 | "Invalid User" exactly when no user has the name; "Invalid Password" only when that user's digest refuses the password; otherwise a token that verifies to that user for one hour |
| Server.SigninIff | task-tracker--backend/server.js:84-92 | with unique names, signing in under an existing name succeeds exactly when the password matches, and fails with "Invalid Password" otherwise |
| Server.SignupThenSignin | task-tracker--backend/server.js:56-117 | after a signup, signing in with the same name and password returns a token that the middleware accepts for the next hour |
| Server.FindAppended | task-tracker--backend/server.js:63-72 | a user added under a fresh name is the one found by that name |
| Server.FindOwnedTask | task-tracker--backend/server.js:194-197 | the position found holds a task with that id owned by the caller, and none is found exactly when no such task exists |
| Server.OthersTaskNotFound | task-tracker--backend/server.js:215-219 | another user's task id is "not found" for the caller |
| Server.Merge | task-tracker--backend/server.js:199-201 | each column takes the supplied value when it is truthy and keeps the stored one otherwise; id and owner never change |
| Server.MergeIdempotent | task-tracker--backend/server.js:201 | applying the same update twice equals applying it once |
| Server.DeleteRemovesOne | task-tracker--backend/server.js:221-222 | the `DELETE ... WHERE id AND user_id` removes exactly the row found |
| Server.OnlyOneOwned | task-tracker--backend/server.js:194-197 | since ids are unique, the row found by id and owner is the only row the lookup could match |
| Server.RemoveKeepsValid | task-tracker--backend/server.js:221-222 | removing a row keeps ids increasing and statuses allowed |
| Server.Store.constructor | task-tracker--backend/server.js:25-45 | both tables start empty, with both id counters at 1 |
| Server.Store.Signup | task-tracker--backend/server.js:56-77 | 400 "too short" exactly when the password has under 5 characters; 400 "exists" exactly when it is long enough but the name is taken; 500 exactly when only the e-mail is taken; otherwise one user (next id, name, e-mail, cost-13 digest) is appended; a refused signup changes nothing |
| Server.Store.CreateTask | task-tracker--backend/server.js:166-182 | 400 exactly when title or status is falsy; 500 exactly when the status is not allowed; otherwise one task with the next id, the given fields and the caller as owner is appended and returned |
| Server.Store.UpdateTask | task-tracker--backend/server.js:185-207 | 400 for a falsy title or status; 404 exactly when the caller owns no task with that id; 500 for a status the constraint refuses; otherwise only the found row changes, to the merge of it and the body |
| Server.Store.DeleteTask | task-tracker--backend/server.js:210-228 | 404 exactly when the caller owns no such task; otherwise just that row is removed; either way the remaining rows are the old ones not owned under that id |
| Server.CompleteOnlyTask | task-tracker--backend/server.js:185-207 | the owner of a titled task who sends its title and the status `'Completed'` gets 200, and the stored task is the old one with only its status changed |
| Server.Session | task-tracker--backend/server.js:56-228 | a fresh user's signup gets 201, sign-in returns a token the middleware admits as that user (id 1), and the task lifecycle then succeeds step by step |
| Server.FirstUser | task-tracker--backend/server.js:56-94 | in an empty database the first signup gets 201, and signing in with the same name and password returns a token the middleware admits as user 1 |
| Server.TaskLifecycle | task-tracker--backend/server.js:166-228 | in an empty table, creating a task gives it id 1 and the caller as owner; completing and deleting it get 200; updating or deleting it again get 404 |
| Server.DeleteOnlyTask | task-tracker--backend/server.js:185-228 | deleting the caller's only task gets 200 and empties the table; an update and a delete of the same id then get 404 |
| Dashboard.FilteredTasks | task-tracker--frontend/src/components/TasksDashboard/index.js:69-74 | the shown rows are exactly those whose title or description contains the query, ignoring case, and whose status matches the filter, in order |
| Seqs.FilterMultiplicity | task-tracker--frontend/src/components/TasksDashboard/index.js:69-74 | `filter` keeps every copy of an element that passes the test and no copy of one that fails, so together with the order its result is determined |
| Dashboard.NoFilterShowsAll | task-tracker--frontend/src/components/TasksDashboard/index.js:69-74 | an empty search with `'All'` shows every row |
| Dashboard.SearchIgnoresCase | task-tracker--frontend/src/components/TasksDashboard/index.js:70-71 | a query matches the same rows as its lower-case form |
| Dashboard.WithStatus | task-tracker--frontend/src/components/TasksDashboard/index.js:142-144 | rows with the id get the new status; all other rows and every id stay as they were |
| Dashboard.WithEdited | task-tracker--frontend/src/components/TasksDashboard/index.js:178-180 | rows with the edited id are replaced by the edited task; the others are kept |
| Dashboard.WithoutId | task-tracker--frontend/src/components/TasksDashboard/index.js:207 | the remaining rows are exactly those with another id, in order |
| Dashboard.RequiredErrors | task-tracker--frontend/src/components/TasksDashboard/index.js:95-99 | a field has a message exactly when it is empty, and it is that field's "... is required" |
| Dashboard.TaskDashboard.constructor | task-tracker--frontend/src/components/TasksDashboard/index.js:10-24 | the initial state: no rows, filter `'All'`, page 1 of 1, 10 per page, a blank form with status `'Pending'` |
| Dashboard.TaskDashboard.ReceivePage | task-tracker--frontend/src/components/TasksDashboard/index.js:51-54 | a fetched page replaces the rows and the totals, and nothing else |
| Dashboard.TaskDashboard.HandleSearchChange | task-tracker--frontend/src/components/TasksDashboard/index.js:60-62 | only the search text changes |
| Dashboard.TaskDashboard.HandleStatusFilterChange | task-tracker--frontend/src/components/TasksDashboard/index.js:64-67 | the filter changes and the page goes back to 1 |
| Dashboard.TaskDashboard.HandlePerPageChange | task-tracker--frontend/src/components/TasksDashboard/index.js:333-336 | the page size changes to one the selector offers and the page goes back to 1 |
| Dashboard.TaskDashboard.HandlePageChange | task-tracker--frontend/src/components/TasksDashboard/index.js:76-80 | the page moves only to a number between 1 and `totalPages`; otherwise nothing changes |
| Dashboard.TaskDashboard.OpenCreateForm | task-tracker--frontend/src/components/TasksDashboard/index.js:231 | only the create form opens |
| Dashboard.TaskDashboard.HandleNewTaskInput | task-tracker--frontend/src/components/TasksDashboard/index.js:358-380 | only the typed field of the create form changes |
| Dashboard.TaskDashboard.ResetTaskForm | task-tracker--frontend/src/components/TasksDashboard/index.js:82-85 | a blank form with status `'Pending'` and three empty messages; nothing else changes |
| Dashboard.TaskDashboard.HandleCancelCreate | task-tracker--frontend/src/components/TasksDashboard/index.js:87-90 | the form is reset and closed |
| Dashboard.TaskDashboard.HandleCreateTask | task-tracker--frontend/src/components/TasksDashboard/index.js:92-123 | the form is sent exactly when title, description and due date are filled in; otherwise exactly the empty fields get their message; a created row is appended and the form is closed and reset |
| Dashboard.TaskDashboard.HandleStatusChange | task-tracker--frontend/src/components/TasksDashboard/index.js:125-151 | the body sent is the row with its new status; on success every row with that id has the new status; on failure the one row still shows it, since it was changed in place |
| Dashboard.TaskDashboard.HandleTaskClick | task-tracker--frontend/src/components/TasksDashboard/index.js:154-157 | the task is selected and editing stops |
| Dashboard.TaskDashboard.HandleEditClick | task-tracker--frontend/src/components/TasksDashboard/index.js:159-162 | a copy of the task is put into the edit form, which opens |
| Dashboard.TaskDashboard.HandleEditInput | task-tracker--frontend/src/components/TasksDashboard/index.js:406-447 | only the typed field of the edited task changes |
| Dashboard.TaskDashboard.CloseEditor | task-tracker--frontend/src/components/TasksDashboard/index.js:457 | only the edit form closes |
| Dashboard.TaskDashboard.HandleEditSave | task-tracker--frontend/src/components/TasksDashboard/index.js:164-190 | on success the rows with the edited id are replaced, editing stops and the edited task is selected; on failure nothing changes |
| Dashboard.TaskDashboard.HandleDeleteTask | task-tracker--frontend/src/components/TasksDashboard/index.js:195-221 | on success the rows with the id are gone and nothing is selected; when that page held one row and was not the first, the page steps back by one; on failure nothing changes |
| Forms.FailureMessage | task-tracker--frontend/src/components/SignUp/index.js:68-73 | the message shown is the server's `error` when truthy, else the fallback, or the failed request's own message |
| Forms.ClearError | task-tracker--frontend/src/components/SignUp/index.js:24-26 | typing into a field blanks that field's message if one is present and leaves every other entry alone |
| SignUpForm.Change | task-tracker--frontend/src/components/SignUp/index.js:18-23 | only the named field of the form changes |
| SignUpForm.EmailOfParts | task-tracker--frontend/src/components/SignUp/index.js:38 | every `local@domain.suffix` whose three parts are non-empty and have no white space passes the e-mail pattern |
| SignUpForm.EmailNeedsAtAndDot | task-tracker--frontend/src/components/SignUp/index.js:38 | an address that passes has an `@` and a `.` |
| SignUpForm.SignUpErrors | task-tracker--frontend/src/components/SignUp/index.js:29-49 | a name error exactly for a blank name; for the e-mail exactly one of "required" (blank), "invalid" (no match of the pattern) or none; "required" for an empty password, "at least 6" for one of 1 to 5 characters; no errors exactly when every check passes |
| SignUpForm.ValidateForm | task-tracker--frontend/src/components/SignUp/index.js:29-49 | filling the error object key by key gives exactly `SignUpErrors` |
| SignUpForm.SignUpPage.constructor | task-tracker--frontend/src/components/SignUp/index.js:7-14 | empty fields, no errors, not loading |
| SignUpForm.SignUpPage.HandleChange | task-tracker--frontend/src/components/SignUp/index.js:18-27 | only the named field changes, and only that field's error is blanked |
| SignUpForm.SignUpPage.HandleSubmit | task-tracker--frontend/src/components/SignUp/index.js:51-81 | the form is posted exactly when it passes every check, and the page moves to login exactly when the post succeeds; a refused form shows its errors; a failed post shows the server's message or "Registration failed" |
| LoginForm.Change | task-tracker--frontend/src/components/Login/index.js:16-21 | only the named field of the form changes |
| LoginForm.LoginErrors | task-tracker--frontend/src/components/Login/index.js:27-39 | "name is required" exactly for a blank name; "Password is required" exactly for an empty password, with no length rule; no errors exactly when both pass |
| LoginForm.ValidateForm | task-tracker--frontend/src/components/Login/index.js:27-39 | filling the error object key by key gives exactly `LoginErrors` |
| LoginForm.LoginPage.constructor | task-tracker--frontend/src/components/Login/index.js:7-13 | empty fields, no errors, not loading |
| LoginForm.LoginPage.HandleChange | task-tracker--frontend/src/components/Login/index.js:16-25 | only the named field changes, and only that field's error is blanked |
| LoginForm.LoginPage.HandleSubmit | task-tracker--frontend/src/components/Login/index.js:41-75 | the form is posted exactly when both checks pass, and the page moves on exactly when sign-in succeeds; a refused form shows its errors; a failed post shows the server's message or "Login failed" |
| CrossChecks.SignUpPasswordPassesServer | task-tracker--frontend/src/components/SignUp/index.js:42-46 | any password the sign-up page accepts also passes the server's five-character rule |
| CrossChecks.FiveCharactersServerOnly | task-tracker--backend/server.js:58 | every five-character password passes the server's rule but is refused by the sign-up page |
| CrossChecks.SignUpFromPage | task-tracker--backend/server.js:56-77 | a form the sign-up page posts is never answered "Password is too short"; the user is appended when the reply is 201, and otherwise no table changes |
| CrossChecks.CreateBody | task-tracker--frontend/src/components/TasksDashboard/index.js:108 | the server's required-field check passes on the create request exactly when the form's title and status are non-empty; a complete form supplies every column |
| CrossChecks.CreateFromDashboard | task-tracker--backend/server.js:166-182 | the create form of any dashboard, once complete, is stored: the table gains exactly one row, with the next id, the form's title and status and the caller as owner, because the form's status is always one the table accepts |
| CrossChecks.StatusBody | task-tracker--frontend/src/components/TasksDashboard/index.js:127-137 | the server's required-field check passes on the status request exactly when the row's title and the new status are non-empty, and the merge then stores that title and status under the same id |
| CrossChecks.StatusChangeFromDashboard | task-tracker--backend/server.js:185-203 | changing the status of one's own titled task from the drop-down always succeeds; only that row changes, to its merge with the posted body, which carries the new status |

## Left out

- Network, cookies, toasts, navigation and `useEffect` re-fetching are not modelled. A request's result is a parameter (`ok`, a `Reply`, or the created row), and the pages report whether they posted and navigated. Storing the login token in a cookie is not modelled.
- Request bodies are modelled with every key present. In the code, a signup body without `password` makes `password.length` throw before the `try`, and the request is never answered; one without `name` or `email` reaches the `INSERT`, fails its `NOT NULL` constraint and gets a 500.
- A sign-in body without `password` for an existing user makes `bcrypt.compare` reject outside any `try`, and the request is never answered. The model's sign-in always takes a password string.
- Dashboard rows carry `description` as a string, while the column may be NULL. For a row with a NULL description whose title does not contain the query, `task.description.toLowerCase()` throws while the list is filtered; the model does not capture that failure.
- Other exceptions are not modelled: database errors other than the `UNIQUE` and `CHECK` violations, the middleware's 500 catch-all, and a failing `response.json()`.
- Concurrency is not modelled. Handlers run one at a time, which sidesteps the race between signup's name check and its `INSERT`.
- The route id `:id` is a string that SQLite compares with the integer column by type affinity. The model takes it as an integer.
- Numbers are unbounded integers. `parseInt` of a fraction, huge or negative values beyond their sign, and floating-point rounding in `Math.ceil` are not modelled.
- bcrypt's 72-byte password limit, its random salt (a parameter here) and the strength of the token signature are not modelled. The stand-ins keep only the contracts "a digest accepts its password" and "a signed token verifies to its user until it expires".
- Text is ASCII: `trim`, `\s`/`\S` and `toLowerCase` ignore Unicode, and `.length` is taken to count characters, while JavaScript counts UTF-16 code units. The password length rules of `Server.Store.Signup` (under 5) and `SignUpForm.SignUpErrors` (under 6) therefore agree with the code only for text without characters outside the Basic Multilingual Plane; "😀😀😀" has length 6 in JavaScript and 3 here.
- `ON DELETE CASCADE` has no effect: the code never deletes users and never enables SQLite's foreign-key enforcement.
- `created_at` is the clock value passed to `Signup`, not SQLite's `CURRENT_TIMESTAMP` text.
- Dashboard rows are values. `handleStatusChange` changes the array element in place; the model writes the changed row back at its index. Other aliasing between JavaScript objects is not modelled.
- `SignUpForm.SignUpPage.HandleSubmit` models `handleSubmit` only. The e-mail input is `type="email"` without `noValidate`, so the browser's own check can stop a submit that `\S+@\S+\.\S+` accepts before `handleSubmit` runs; that check is not modelled.
- `App.js` holds only the route table and is not part of this model.
