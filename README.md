# Birthday greetings: a Dafny model

This project models the core of a small birthday-greetings service. The service keeps
users and their subscriptions in two SQL tables: `users`, and `subscribes`, whose rows are
(userID, subscriberID) edges. It offers:

- an HTTP API to register, log in, list users and subscribe to or unsubscribe from a
  user;
- a Telegram bot with the commands `/start`, `/users`, `/subscribe <id>` and
  `/unsubscribe <id>`;
- a daily cycle that greets the subscribers of everyone whose birthday it is.

The model has these parts:

- `users.dfy`: the `User` record and its JSON form (`omitempty` on `password`).
- `repo.dfy` and `repo_facts.dfy`: the repository. Each SQL statement becomes a pure
  function over a `Tables` value (the two tables and the auto-increment counter).
  The class `Repo.UserStore` keeps the tables in fields. Its mutators are proved equal
  to those functions, and they keep the table constraints (unique ids, usernames and
  handles). Its list queries are the `for rows.Next()` loops, proved against the query
  functions.
- `crypt.dfy`: a stand-in for bcrypt, with the property the code relies on, in an
  idealised form: the hash of a password verifies that password and no other.
- `bot.dfy` and `bot_facts.dfy`: the bot and the notification cycle.
  - Command dispatch is on text prefixes. No command name is a prefix of another, so the
    result does not depend on the map's iteration order.
  - The handlers are pure step functions. The update loop and the nested notification
    loop are methods proved against them.
  - The cycle's sends are counted against an independent enumeration of (birthday row,
    subscriber row) pairs: one greeting per pair, in order.
- `handlers.dfy` and `handler_facts.dfy`: the HTTP handlers. Each is a pure function
  from the outcomes of its collaborators to a response:
  - collaborators: the body read and decode, the session store's `Check` and `Create`
    (given as functions), and the repository call;
  - the response is the status, the body, and the list of collaborators consulted, in
    order.
- `strings.dfy`: the parts of Go's `strings` and `strconv` the code relies on.
  - `strings.HasPrefix` and `strings.ToLower` (ASCII).
  - `strconv.FormatInt`, with its round trip through `strconv.Atoi`.
  - `strconv.Atoi`'s error texts, built with `strconv.Quote`.
- `wrappers.dfy`: `Option` and `Result`.

Driver failures and refusals that the tables alone cannot decide are parameters:

- `fault: Option<string>`: a query or `UPDATE` that fails with the driver's message.
- `rejected: bool`: an `INSERT` or `DELETE` the database refuses, such as a duplicate
  key.
- `failing: map<int, string>`: the users whose subscriber query fails in the
  notification cycle.

Time, Telegram sends, bcrypt's random salt (`salt`) and the request's user agent are
inputs too.

Where the code has dead branches, the model follows the code. In `Login`, the 401
answers for `ErrNoUser` and `ErrBadPass` follow an `if err != nil` that has already
returned 400. In `Register`, the `"already exists"` entry and its 422 are likewise never
reached. The model has an answer of 400 with the error text in both cases. The lemmas
`HandlerFacts.LoginStatuses` and `HandlerFacts.RegisterErrors` state it.

## Model

| member | source | states |
|---|---|---|
| `Users.Encode` | pkg/user/user.go:3-13 | a user marshals to exactly the tags id, username, firstname, middlename, lastname, password, birthday, telegram, telegramid in that order, each with its field's value; `password` is left out exactly when it is empty |
| `Crypt.Hash` | pkg/user/repo.go:71-78 | the stored hash of a password verifies that password, and a password verifies it exactly when it is that password |
| `Crypt.Verifies` | pkg/user/repo.go:36-39 | no contract of its own; `bcrypt.CompareHashAndPassword` succeeding, stated by `Crypt.Hash` |
| `Repo.ErrorText` | pkg/user/repo.go:12-16 | no contract of its own; the texts of `ErrNoUser`, `ErrBadPass`, `ErrExists`, `"not valid type"`, `"no rows updated"` and a driver error's own message, used by `HandlerFacts.LoginStatuses`, `HandlerFacts.RegisterErrors` and `HandlerFacts.GetUsersFromRepository` |
| `Repo.Find` | pkg/user/repo.go:29-31 | a single-row lookup finds no row exactly when no row matches the key, otherwise a matching row |
| `Repo.FindSelected` | pkg/user/repo.go:173-183 | with unique ids, usernames and handles, the row a key selects is the one found |
| `Repo.Authorize` | pkg/user/repo.go:26-42 | `ErrNoUser` exactly when no row has the username; a success is the id, username and hash of a row with that username whose hash verifies the password; otherwise `ErrBadPass` for a row whose hash does not verify it |
| `Repo.GetUserByTelegram` | pkg/user/repo.go:173-184 | `ErrNoUser` exactly when no row has the handle; otherwise the id, username and handle of a row with it |
| `Repo.Unlinked` | pkg/user/repo.go:126-134 | the exact-pair `DELETE` leaves the edge multiset with every copy of that edge removed and all other edges kept |
| `Repo.CountHandle` | pkg/user/repo.go:225-232 | the number of rows the `UPDATE` affects is zero exactly when no row has the handle |
| `Repo.Bound` | pkg/user/repo.go:216-220 | the `UPDATE` sets `telegramID` on the rows with the handle and keeps every other row |
| `Repo.BirthdayRows` | pkg/user/repo.go:187-190 | the `MONTH`/`DAY` filter keeps exactly the rows born on that month and day |
| `Repo.JoinRows` | pkg/user/repo.go:144-148 | the join returns exactly the users appearing as `subscriberID` on an edge whose `userID` is the given id |
| `Repo.Collect` | pkg/user/repo.go:87-103 | a driver error passes through, no rows is `ErrNoUser`, otherwise one scanned row per selected row, in order, never with a password |
| `Repo.ScanRows` | pkg/user/repo.go:88-94 | the scan loop appends one projected row per selected row, in order |
| `Repo.YearIgnored` | pkg/user/repo.go:189-190 | two dates that differ only in their four-digit year match the same birthday query |
| `Repo.MakeUserKeepsWellFormed` | pkg/user/repo.go:50-62 | an insert keeps ids, usernames and handles unique and ids below the counter |
| `Repo.UserStore.constructor` | pkg/user/repo.go:22-24 | the repository over a fresh database: empty tables and the counter at 1 |
| `Repo.Taken` | pkg/user/repo.go:50-62 | no contract of its own; the unique keys (username, handle) the `INSERT` is refused on, stated by `RepoFacts.RegisterTwice` |
| `Repo.NewRow` | pkg/user/repo.go:50-62 | no contract of its own; the inserted row with the next id, the hash and no `telegramID`, stated by `RepoFacts.MakeUserStoresHash` |
| `Repo.MakeUserStep` | pkg/user/repo.go:44-69 | no contract of its own; the insert as a step on the tables, whose properties `RepoFacts.MakeUserStoresHash`, `RepoFacts.RegisterTwice` and `Repo.MakeUserKeepsWellFormed` state |
| `Repo.SubscribeStep` | pkg/user/repo.go:106-141 | no contract of its own; the edge insert or delete as a step, stated by `RepoFacts.SubscribeFrame` and `RepoFacts.SubscribeErrors` |
| `Repo.UpdateUserStep` | pkg/user/repo.go:215-235 | no contract of its own; the chat-id `UPDATE` as a step, stated by `RepoFacts.UpdateUserFrame` |
| `Repo.MonthDay` | pkg/user/repo.go:190 | no contract of its own; `MONTH` and `DAY` of a `YYYY-MM-DD` value, stated by `RepoFacts.MonthDayOfIsoDate`, `RepoFacts.MalformedDateNeverMatches` and `Repo.YearIgnored` |
| `Repo.UsersQuery` | pkg/user/repo.go:80-104 | no contract of its own; the `SELECT` of every user through `Repo.Collect`, stated by `RepoFacts.UsersQueryListsEveryone` |
| `Repo.SubscribersQuery` | pkg/user/repo.go:143-171 | no contract of its own; the join through `Repo.Collect` with `telegramID`, stated by `Repo.JoinRows` and `RepoFacts.SubscribedIsListed` |
| `Repo.BirthdayQuery` | pkg/user/repo.go:186-213 | no contract of its own; the date filter through `Repo.Collect`, stated by `RepoFacts.BirthdayQueryExact` |
| `Repo.UserStore.MakeUser` | pkg/user/repo.go:44-69 | the tables after `MakeUser` and its result are those of the insert step; the constraints are kept |
| `Repo.UserStore.GetUsers` | pkg/user/repo.go:80-104 | the loop's result is every user without the password column, `ErrNoUser` on an empty table, a driver error unchanged |
| `Repo.UserStore.Subscribe` | pkg/user/repo.go:106-141 | the tables after `Subscribe` and its result are those of the subscribe step; the constraints are kept |
| `Repo.UserStore.GetSubscribedUsers` | pkg/user/repo.go:143-171 | the loop's result is the join's rows with `telegramID`, `ErrNoUser` when there are none |
| `Repo.UserStore.GetUserByBirthday` | pkg/user/repo.go:186-213 | the loop's result is the users born on that month and day, `ErrNoUser` when there are none |
| `Repo.UserStore.UpdateUser` | pkg/user/repo.go:215-235 | the tables after `UpdateUser` and its error are those of the update step; the constraints are kept |
| `RepoFacts.MakeUserStoresHash` | pkg/user/repo.go:45-68 | a successful insert appends one row holding the hash of the password (which verifies it) and no `telegramID`, and answers with the new id and the username only |
| `RepoFacts.RegisterThenAuthorize` | pkg/user/repo.go:26-68 | a user who has just registered is authorized with the same password and gets the id registration returned |
| `RepoFacts.WrongPasswordRefused` | pkg/user/repo.go:26-42 | a user who has just registered and gives any other password is refused with `ErrBadPass` |
| `RepoFacts.RegisterTwice` | pkg/user/repo.go:50-62 | registering a taken username or handle is `ErrExists` and leaves both tables unchanged |
| `RepoFacts.SubscribeFrame` | pkg/user/repo.go:106-141 | `Subscribe` never changes `users`; it fails exactly when the target is missing, the mode is not 0 or 1, or the statement is refused, and then changes nothing; mode 1 adds the edge, mode 0 removes every copy of it, other edges are kept; the result is the target |
| `RepoFacts.SubscribeErrors` | pkg/user/repo.go:109-137 | a missing target is `ErrNoUser` whatever the mode; with a target, a mode other than 0 and 1 is `"not valid type"` and a refused statement is `ErrExists` |
| `RepoFacts.SubscribedIsListed` | pkg/user/repo.go:117-124 | after subscribing, the subscriber is among the target's subscribers, with its `telegramID` |
| `RepoFacts.UnsubscribedIsNotListed` | pkg/user/repo.go:126-134 | after unsubscribing, no row with the subscriber's id is among the target's subscribers |
| `RepoFacts.UpdateUserFrame` | pkg/user/repo.go:215-233 | `UpdateUser` sets `telegramID` on exactly the rows whose handle is `"@" + name`, keeps every other row and the edges, and reports `"no rows updated"` exactly when no row has the handle, in which case nothing changes |
| `RepoFacts.UpdateUserKeepsWellFormed` | pkg/user/repo.go:216-220 | binding a chat id keeps the table constraints |
| `RepoFacts.SubscribeKeepsWellFormed` | pkg/user/repo.go:116-134 | editing edges keeps the table constraints |
| `RepoFacts.ListingsHidePasswords` | pkg/user/repo.go:81-90 | no row of any list query marshals a `password` member |
| `RepoFacts.UsersQueryListsEveryone` | pkg/user/repo.go:80-103 | on a non-empty table `GetUsers` lists one row per user, each a user of the table without its password |
| `RepoFacts.BirthdayQueryExact` | pkg/user/repo.go:186-212 | the birthday query fails exactly when nobody is born on that day, and otherwise lists exactly those users |
| `RepoFacts.MonthDayOfIsoDate` | pkg/user/repo.go:190 | a zero-padded `YYYY-MM-DD` date matches the query for its own month and day, whatever its year |
| `RepoFacts.MalformedDateNeverMatches` | pkg/user/repo.go:190 | in the model, which reads only `YYYY-MM-DD` values (see `Repo.MonthDay` under "## Left out"), a value that is not ten characters long matches no birthday query |
| `Bot.Dispatch` | bot/bot.go:146-150 | no command is run exactly when no name prefixes the text; otherwise the command run is one whose name prefixes it |
| `Bot.AtMostOneCommand` | bot/bot.go:20-25 | no command name is a prefix of another, so at most one command matches a text |
| `Bot.DispatchIgnoresOrder` | bot/bot.go:146-150 | the command run is the same for every iteration order of `commandHandlers` |
| `Bot.Argument` | bot/bot.go:71 | the bounds-checked argument is the text from the offset on, or empty where slicing would fail |
| `Bot.PanicsOnlyOnBareCommand` | bot/bot.go:106 | the handler as written fails exactly on the bare texts `/subscribe` and `/unsubscribe`, and elsewhere answers as the bounds-checked handler |
| `Bot.BareSubscribe` | bot/bot.go:70-78 | a bare `/subscribe` panics as written; the bounds-checked handler answers with the `strconv.Atoi` error for an empty id and changes nothing |
| `Bot.HandleNoCommand` | bot/bot.go:140-153 | an update without a message, or whose text starts with no command, gets no answer and changes nothing |
| `Bot.SubscriptionStep` | bot/bot.go:70-138 | a subscription command always answers with exactly one message, to the chat it came from |
| `Bot.SubscriptionSucceeds` | bot/bot.go:80-102 | with a known sender and target, the answer is the confirmation and the target's handle, and the edge (target, sender) is added (mode 1) or removed (mode 0) |
| `Bot.SubscriptionFails` | bot/bot.go:71-96 | an unparsable id answers with the `strconv.Atoi` error; an unknown sender or target answers `"no user found"`; neither changes the tables |
| `Bot.SubscriptionArgument` | bot/bot.go:106 | the id written after `/subscribe ` or `/unsubscribe ` is the id parsed |
| `Bot.StartStep` | bot/bot.go:52-68 | `/start` always answers with exactly one message, to the chat it came from |
| `Bot.StartOutcome` | bot/bot.go:52-68 | `/start` binds the chat id to the rows with the sender's handle and welcomes them; without such a row it answers `"no rows updated"` and changes nothing |
| `Bot.UsersListOutcome` | bot/bot.go:28-50 | `/users` answers one line per user, in table order, and nothing when the table is empty or the query fails |
| `Bot.UserLine` | bot/bot.go:39-41 | no contract of its own; the `/users` line of one user, stated by `Bot.UsersListOutcome` |
| `Bot.Confirmation` | bot/bot.go:98-101 | no contract of its own; the success texts of `/subscribe` and `/unsubscribe` (also bot/bot.go:133-136), stated by `Bot.SubscriptionSucceeds` |
| `Bot.UsersReplies` | bot/bot.go:28-50 | no contract of its own; one line per listed user, stated by `Bot.UsersListOutcome` |
| `Bot.Run` | bot/bot.go:20-25 | no contract of its own; the handler each command maps to, stated by `Bot.SubscriptionStep`, `Bot.StartStep` and `Bot.StartOutcome` |
| `Bot.Handle` | bot/bot.go:140-153 | no contract of its own; the dispatch with the bounds-checked argument, stated by `Bot.HandleNoCommand` and `Bot.PanicsOnlyOnBareCommand` |
| `Bot.HandleAsWritten` | bot/bot.go:140-153 | no contract of its own; the dispatch with the unchecked slices, stated by `Bot.PanicsOnlyOnBareCommand` and `Bot.BareSubscribe` |
| `Bot.Greeting` | bot/bot.go:252-260 | no contract of its own; the greeting text with the user's three names, used by `Bot.NotificationsExact` |
| `Bot.UserSends` | bot/bot.go:245-256 | no contract of its own; the inner loop's sends for one user, stated by `Bot.UserSendsSound`, `Bot.UserSendsComplete` and `BotFacts.UserSendsPairs` |
| `Bot.Greetings` | bot/bot.go:252-261 | one greeting per subscriber, in order, addressed to its `telegramID` |
| `Bot.FanOut` | bot/bot.go:244-256 | no contract of its own; the outer loop's sends, user by user, stated by `Bot.ConcatMembers` and `BotFacts.FanOutPairs` |
| `Bot.FanOutStep` | bot/bot.go:244-256 | one more birthday user appends exactly that user's sends to the outer loop's sends |
| `Bot.Notifications` | bot/bot.go:238-242 | a failing birthday query sends nothing |
| `Bot.ConcatMembers` | bot/bot.go:244-256 | a send of the outer loop is a send made for one of the birthday users |
| `Bot.UserSendsMembers` | bot/bot.go:245-255 | the sends about one user greet its subscribers' chats, and none when its subscriber query fails |
| `Bot.UserSendsSound` | bot/bot.go:245-255 | every send about one user goes to a subscriber's chat with that user's greeting, and only when its subscriber query does not fail |
| `Bot.UserSendsComplete` | bot/bot.go:245-255 | every subscriber of a user whose subscriber query does not fail is sent that user's greeting |
| `Bot.NotificationsSound` | bot/bot.go:244-256 | every greeting sent goes to a subscriber of a user born on that day whose subscriber query did not fail |
| `Bot.NotificationsComplete` | bot/bot.go:244-256 | every such subscriber is greeted |
| `Bot.NotificationsExact` | bot/bot.go:233-264 | a greeting is sent exactly for the pairs (birthday user whose subscriber query does not fail, subscriber of that user), with that user's full name in the text (how many, and in which order, is stated by `BotFacts.NotificationsArePairs`) |
| `BotFacts.PairsCount` | bot/bot.go:244-256 | there are as many (birthday row, subscriber row) pairs as the sum, over the birthday rows whose subscriber query does not fail, of their joined subscriber rows |
| `BotFacts.PairsMembers` | bot/bot.go:244-256 | a pair is listed exactly when its birthday row is listed, its subscriber query does not fail, and its subscriber is joined to it |
| `BotFacts.UserSendsPairs` | bot/bot.go:245-256 | the inner loop for one birthday row sends the greetings of its pairs, in order |
| `BotFacts.FanOutPairs` | bot/bot.go:244-256 | the outer loop sends the greetings of all pairs, birthday row by birthday row |
| `BotFacts.NotificationsArePairs` | bot/bot.go:233-257 | the cycle sends as many greetings as there are pairs, and the k-th send is the greeting of the k-th pair |
| `BotFacts.JoinRowsDistinct` | pkg/user/repo.go:144-148 | with unique ids and no repeated edge, the join lists no subscriber row twice |
| `BotFacts.BirthdayRowsDistinct` | pkg/user/repo.go:187-190 | the date filter of distinct rows lists no row twice |
| `BotFacts.PairsDistinct` | bot/bot.go:244-256 | with distinct birthday rows, unique ids and no repeated edge, no pair is listed twice |
| `BotFacts.OnePerPair` | bot/bot.go:233-264 | on well-formed tables with no repeated edge, the cycle sends exactly one greeting per pair (a user born that day whose subscriber query does not fail, a subscriber with an edge to that user), the k-th send for the k-th pair, and no pair twice |
| `Bot.UsersListHandler` | bot/bot.go:28-50 | the loop's messages are those of `/users` |
| `Bot.SubscriptionHandler` | bot/bot.go:70-138 | the handler's answer and tables are those of the subscription step |
| `Bot.SubscribeHandler` | bot/bot.go:70-103 | `/subscribe` reads its id from offset 11 and subscribes (mode 1) |
| `Bot.UnsubscribeHandler` | bot/bot.go:105-138 | `/unsubscribe` reads its id from offset 13 and unsubscribes (mode 0) |
| `Bot.StartHandler` | bot/bot.go:52-68 | the handler's answer and tables are those of the start step |
| `Bot.RunCommand` | bot/bot.go:20-25 | each command runs the handler `commandHandlers` maps it to |
| `Bot.UpdateHandler` | bot/bot.go:140-153 | the dispatch loop runs the first command of the iteration order whose name prefixes the text, and nothing otherwise |
| `Bot.GreetSubscribers` | bot/bot.go:252-255 | the inner loop sends one greeting per subscriber |
| `Bot.CheckAndSendNotifications` | bot/bot.go:233-257 | the nested loop's sends are those of the notification cycle |
| `Strings.ToLower` | pkg/handlers/user.go:226 | lower-casing keeps the length, leaves no capital, and changes only capitals |
| `Strings.Atoi` | bot/bot.go:71-77 | `strconv.Atoi` succeeds exactly when the decimal reader does, with the same value; an error text starts with `strconv.Atoi: parsing ` and the quoted input |
| `Strings.ParseInt` | bot/bot.go:71 | every number read is a 64-bit integer |
| `Strings.ParseFormatted` | bot/bot.go:39 | every 64-bit integer is read back from its `strconv.FormatInt` form |
| `Strings.FormatInt` | bot/bot.go:39 | no contract of its own; decimal digits with a leading `-` for negatives, stated by `Strings.ParseFormatted` |
| `Strings.Quote` | bot/bot.go:71-77 | no contract of its own; the quoted input in `strconv.Atoi`'s error text, stated by `Strings.Atoi` |
| `Strings.AtoiEmpty` | bot/bot.go:71-77 | an empty id is a syntax error |
| `Handlers.Violations` | pkg/handlers/user.go:221 | the validator reports exactly the required fields with a zero value (their order is stated by `HandlerFacts.InDeclarationOrder`) |
| `Handlers.AuthFields` | pkg/handlers/user.go:28-31 | no contract of its own; the login form's `validate:"required"` tags, stated by `HandlerFacts.LoginValidation` |
| `Handlers.RegFields` | pkg/handlers/user.go:33-41 | no contract of its own; the registration form's tags, stated by `HandlerFacts.RegisterValidation` and `HandlerFacts.RegisterRequired` |
| `Handlers.SubscribeFields` | pkg/handlers/user.go:43-46 | no contract of its own; the subscribe form's tags, stated by `HandlerFacts.SubscribeValidation` and `HandlerFacts.SubscribeEntries` |
| `Handlers.ValidationErrors` | pkg/handlers/user.go:220-235 | no contract of its own; `nil` or the entry list, stated by `HandlerFacts.ValidationExact` and `HandlerFacts.InDeclarationOrder` |
| `Handlers.Fail` | pkg/handlers/user.go:57 | no contract of its own; `http.Error`, which writes the message and a newline, used by every error answer |
| `Handlers.Entries` | pkg/handlers/user.go:222-231 | one entry per reported field |
| `Handlers.DataValidation` | pkg/handlers/user.go:220-235 | the loop builds one entry per reported field, and returns nothing when none is reported |
| `Handlers.BearerToken` | pkg/handlers/user.go:240-246 | a token exists exactly when the header starts with `Bearer `, and it is the rest of the header |
| `Handlers.BearerRoundTrip` | pkg/handlers/user.go:246 | any token written after `Bearer ` is read back |
| `HandlerFacts.ValidationExact` | pkg/handlers/user.go:220-235 | no entry exactly when every required field is set; otherwise one `{body, lower-cased name, is required}` entry for each required field that is not set |
| `HandlerFacts.ValidationEntries` | pkg/handlers/user.go:221-231 | each entry of a failed validation is `{body, lower-cased name, is required}` for a failing field, and every failing field has its entry |
| `HandlerFacts.EntriesCons` | pkg/handlers/user.go:221-231 | the entries of a field list are the first field's entry, when it fails, followed by the entries of the other fields |
| `HandlerFacts.ViolationsFrom` | pkg/handlers/user.go:221 | the validator's report on the fields from a position on lists the fields at increasing positions, exactly the positions of required fields that are unset |
| `HandlerFacts.InDeclarationOrder` | pkg/handlers/user.go:220-235 | the k-th entry is for the field at the k-th failing position; the positions increase and are exactly those of the required fields that are unset |
| `HandlerFacts.SubscribeEntries` | pkg/handlers/user.go:43-46 | the subscribe form's 422 list is exactly the `userid` entry when that id is 0, then the `subscriberid` entry when that id is 0 |
| `HandlerFacts.LowerNames` | pkg/handlers/user.go:226 | the validated fields' Go names lower-case to `username`, `firstname`, `lastname`, `password`, `birthday`, `telegram`, `userid` and `subscriberid` |
| `HandlerFacts.LoginValidation` | pkg/handlers/user.go:28-31 | the login form requires only the password |
| `HandlerFacts.RegisterValidation` | pkg/handlers/user.go:33-41 | the registration form requires every field but the middle name |
| `HandlerFacts.RegisterRequired` | pkg/handlers/user.go:33-41 | the registration form's required fields are set exactly when all six are non-empty |
| `HandlerFacts.RegisterParams` | pkg/handlers/user.go:226 | the entries for the registration form have the six lower-cased tag names |
| `HandlerFacts.SubscribeValidation` | pkg/handlers/user.go:43-46 | the subscribe form requires two non-zero ids, reported as `userid` and `subscriberid` |
| `Handlers.OpenSession` | pkg/handlers/user.go:106-119 | no contract of its own; the session creation shared by login and registration, stated by `HandlerFacts.LoginSession` and `HandlerFacts.RegisterSession` |
| `Handlers.Login` | pkg/handlers/user.go:52-131 | no contract of its own; stated by `HandlerFacts.LoginStatuses`, `HandlerFacts.LoginSession` and `HandlerFacts.WrongPasswordNoSession` |
| `Handlers.Register` | pkg/handlers/user.go:133-218 | no contract of its own; stated by `HandlerFacts.RegisterErrors`, `HandlerFacts.RegisterSession` and `HandlerFacts.RegisterThenLogin` |
| `Handlers.GetUsers` | pkg/handlers/user.go:237-272 | no contract of its own; stated by `HandlerFacts.WithoutBearer`, `HandlerFacts.UnknownSession` and `HandlerFacts.GetUsersHidesPasswords` |
| `Handlers.Subscription` | pkg/handlers/user.go:274-322 | no contract of its own; the body shared by both subscription handlers, stated by `HandlerFacts.SubscriptionOrder` |
| `Handlers.SubscribeToUser` | pkg/handlers/user.go:274-322 | no contract of its own; the shared body with mode 1, stated by `HandlerFacts.SubscriptionOrder` |
| `Handlers.UnsubscribeToUser` | pkg/handlers/user.go:324-372 | no contract of its own; the shared body with mode 0, stated by `HandlerFacts.SubscriptionOrder` |
| `HandlerFacts.GetUsersOutcome` | pkg/handlers/user.go:237-272 | with a known session, the store is checked and then the repository called; a repository error is 400 with its text, otherwise 200 with every user marshalled, in order |
| `HandlerFacts.GetUsersFromRepository` | pkg/handlers/user.go:252-272 | over the repository model, a driver error is 400 with its message, an empty table 400 `"no user found"`, otherwise 200 with every user encoded without the password |
| `HandlerFacts.BodyFailures` | pkg/handlers/user.go:53-66 | an unreadable body is 400 `ErrReading` and an undecodable one 400 `ErrBadRequest` in `Login`, `Register` and, past the session check, the subscription handlers, with nothing consulted after the body |
| `HandlerFacts.WithoutBearer` | pkg/handlers/user.go:240-244 | without the `Bearer ` prefix the protected handlers answer 401 and consult nothing |
| `HandlerFacts.UnknownSession` | pkg/handlers/user.go:246-250 | a token the session store does not know is answered 401 after one check of the header's rest |
| `HandlerFacts.SubscriptionOrder` | pkg/handlers/user.go:274-322 | the session is checked before the body is read; the repository is called only with the decoded, valid form and the handler's mode; 200 with no body exactly when that call succeeds, 400 with `ErrBadRequest` when it fails |
| `HandlerFacts.LoginStatuses` | pkg/handlers/user.go:84-97 | `Login` never answers 401; every `Authorize` error is 400 with the error's text |
| `HandlerFacts.LoginSession` | pkg/handlers/user.go:106-119 | a session is created only for the user `Authorize` returned, with the request's user agent; 200 with its id, or 500 when the store refuses |
| `HandlerFacts.RegisterErrors` | pkg/handlers/user.go:165-188 | every `MakeUser` error is 400 with its text, so a taken username is 400 `"already exists"`, and no session is created |
| `HandlerFacts.RegisterSession` | pkg/handlers/user.go:193-206 | a session is created only for the user `MakeUser` returned, after validation; 200 with its id, or 500 when the store refuses |
| `HandlerFacts.GetUsersHidesPasswords` | pkg/handlers/user.go:252-264 | `/api/users` served from the repository shows no password member |
| `HandlerFacts.RegisterThenLogin` | pkg/handlers/user.go:165-196 | over the repository model, a valid registration opens a session for the new id, and logging in with the same credentials opens one for the same id |
| `HandlerFacts.WrongPasswordNoSession` | pkg/handlers/user.go:84-97 | over the repository model, logging in as a user who has just registered with any other password opens no session: 400 `"invalid password"`, or 422 when the password is empty |

## Left out

- `cmd/main.go`: configuration, database and Redis connections, routing, goroutines and
  the cancellation context are not part of this model.
- `StartTaskBot`: the webhook, its HTTP server and the daily ticker are left out. So is
  the reply loop, in which a failed send ends the bot. All of these are network I/O and
  concurrency.
- `sendTelegramNotification`: only its text is modelled. The send itself and its logged
  failure are outputs. A failed send does not stop the others, so every send of the
  cycle is attempted.
- `Crypt.Hash`: a deterministic stand-in with a salt parameter. Unlike bcrypt it is not
  one-way (the password can be read back from the hash) and has no cost factor. Its
  failure to hash, for example for passwords over 72 bytes, is not modelled. bcrypt reads
  at most the first 72 bytes of a password, so where it accepts a longer one, a hash
  verifies every password with the same first 72 bytes. "No other password verifies" is
  the model's idealisation, and `RepoFacts.WrongPasswordRefused` and
  `HandlerFacts.WrongPasswordNoSession` inherit it.
- `BotFacts.OnePerPair`: it assumes no repeated edge. With a repeated edge the join
  lists the subscriber once per copy, and the model then greets once per copy, as the
  SQL join does; `BotFacts.NotificationsArePairs` holds in that case too.
- The sessions package is not part of this model. `Check` and `Create` are
  function-valued inputs.
- JSON: request decoding is an input outcome (`BodyRead`). Response encoding is left
  out, and so are write errors and `json.Marshal` failures on maps of strings and on user
  lists, which cannot occur. The 422 body is kept as its list of entries.
- `Login`'s `u == nil` branch is left out: it needs a repository that returns neither a
  user nor an error, and the repository never does.
- Logging, `time.Now` and the `UserHandler` struct are left out.
- `UserRepo` is not modelled as an interface type, since the model has no traits.
  - `Repo.UserStore` has `MakeUser`, `GetUsers`, `Subscribe`, `GetSubscribedUsers` and
    `UpdateUser` as methods.
  - `Authorize` and `GetUserByTelegram` are functions over its `State()`.
  - The handlers take the results of these operations as inputs.
- SQL: rows come back in insertion order. The schema is not modelled, so a `NULL`
  `telegramID` (which would make the scan fail) cannot arise. A failure of a single-row
  lookup looks like a missing row, exactly as the code reports it (`ErrNoUser`).
- `Repo.CountHandle`: it counts matched rows. MySQL by default reports changed rows, so
  re-binding the same chat id would report `"no rows updated"` there.
- `Repo.MonthDay`: it reads only ten-character `YYYY-MM-DD` values. MySQL's `MONTH` and
  `DAY` also accept date-times and other formats.
- `Bot.Argument`: Go slices the text at byte offsets and the model at character offsets.
  The two differ only when a character before the offset is not ASCII.
- `Strings.Escape`: it covers ASCII. Non-ASCII characters are kept, as `strconv.Quote`
  does for printable ones. Non-printable non-ASCII characters, which Quote escapes, are
  not modelled.
- A `nil` `Message.From` (an update from a channel) is not modelled, because the bot
  would panic on it.
- Integer widths: ids and chat ids are unbounded integers, so the overflow of the 64-bit
  auto-increment counter is not modelled. `strconv.Atoi`'s 64-bit range is modelled.
  A refused `INSERT` keeps the counter (`Repo.MakeUserStep`, `RepoFacts.RegisterTwice`).
  MySQL's InnoDB by default uses up the auto-increment value of an insert refused for a
  duplicate key, so there the next id skips one. No answer carries the skipped value.

## Findings

| source | as written | input that shows it | evidently intended | confidence | as-written member | corrected member |
|---|---|---|---|---|---|---|
| bot/bot.go:71 | `subscribeHandler` slices `Text[11:]` with no length check | a message whose text is exactly `/subscribe` (10 characters): the slice is out of range and the update loop panics | answer with the parse error of an empty id, as for any other id that does not parse | not executed; high | `Bot.BareSubscribe` | `Bot.Handle` |
| bot/bot.go:106 | `unsubscribeHandler` slices `Text[13:]` with no length check | a message whose text is exactly `/unsubscribe` (12 characters) | answer with the parse error of an empty id | not executed; high | `Bot.PanicsOnlyOnBareCommand` | `Bot.Handle` |

`Bot.HandleAsWritten` models the handler as written, with `None` for the panic.
`Bot.Handle` reads the argument with a bounds check, and `Bot.UpdateHandler` is proved
against it.
