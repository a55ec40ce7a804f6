# CV server core, modelled in Dafny

This project models the request logic of the CV assistant's HTTP server
(`mcp-cv-server/src/server.ts`):

- **the question engine.** `pickLastRole` ranks the résumé's work items by a numeric
  score. The ranking is a stable descending sort, and the head of the sorted copy is the
  last role. `answerCvQuestion` normalises a question, tries three regular expressions in
  order (last role, list of companies, "work(ed) at <company>") and falls back to a
  five-line help text. Modules: `JsText` holds the JavaScript string and number
  primitives, `Ranking` the score and the sort, `Patterns` the three regular
  expressions as predicates, `CvQuery` the rule table and `CvScenarios` a worked example.
- **the `/mcp` session table** (module `Sessions`). `SessionTable` is a class whose
  `sessions` map goes from session id to transport. Its methods:
  - `Handle` routes one request.
  - `OnSessionInitialized` registers the id the protocol layer generated.
  - `OnClose` deletes the transport's entry.

  Transports are opaque numbers, handed out in creation order.
- **the e-mail side** (module `Mail`), which covers three things:
  - the required-field check of `POST /send-email`;
  - `makeTransport`'s choice between the configured SMTP relay and a throw-away test
    account, as a pure function of the environment;
  - the text the `send_email` tool answers with.

Absent optional strings (`start`, `end`, environment variables, a missing preview URL)
are written as the empty string. The code tests every one of them for truthiness, and
absent and empty are both falsy.

`Array.prototype.sort` is stable, and the comparator `score(b) - score(a)` is consistent.
Any stable sort with that comparator therefore yields the same order. The model uses a
stable insertion sort and proves four things about it:
- it sorts in descending order;
- it is a permutation;
- it keeps ties in list order;
- its head is the earliest item of maximal score.

Registering a session id that is already present does not fail: `sessions[newId] = transport`
overwrites the entry. `Sessions.DuplicateId` shows the consequence. There is also no idle
timeout and no "closed" state beyond the deletion on close.

## Model

| member | source | states |
|---|---|---|
| JsText.ToLower | mcp-cv-server/src/server.ts:59 | lower-casing keeps the length and maps each character independently (ASCII letters only) |
| JsText.ToLowerIdempotent | mcp-cv-server/src/server.ts:80 | lower-casing an already lower-cased string changes nothing |
| JsText.TrimStart | mcp-cv-server/src/server.ts:59 | the result is a suffix of the input, only whitespace was dropped, and it does not start with whitespace |
| JsText.TrimEnd | mcp-cv-server/src/server.ts:59 | the result is a prefix of the input, only whitespace was dropped, and it does not end with whitespace |
| JsText.Trim | mcp-cv-server/src/server.ts:59 | a trimmed string neither starts nor ends with whitespace |
| JsText.TrimIsSlice | mcp-cv-server/src/server.ts:59 | `trim` returns a slice `s[a..b]` of its input with only whitespace outside it |
| JsText.TrimOfUnpadded | mcp-cv-server/src/server.ts:80 | a string without leading or trailing whitespace is its own trim |
| JsText.TrimIdempotent | mcp-cv-server/src/server.ts:80 | trimming twice is trimming once |
| JsText.IndexOf | mcp-cv-server/src/server.ts:51 | -1 exactly when the character is absent, otherwise the index of its first occurrence |
| JsText.RemoveFirst | mcp-cv-server/src/server.ts:51 | `replace("-", "")` leaves a string without '-' unchanged; otherwise it removes the first '-' and keeps everything before and after it in order |
| JsText.JsNumber | mcp-cv-server/src/server.ts:52-53 | a string denotes a number exactly when it is all decimal digits; the empty string is 0 |
| JsText.DigitsValueBound | mcp-cv-server/src/server.ts:52 | n digits denote a number below 10^n |
| JsText.DigitsValueAppend | mcp-cv-server/src/server.ts:51-52 | reading two digit strings joined is reading the first, shifting by the width of the second, and adding the second |
| JsText.Join | mcp-cv-server/src/server.ts:73 | no contract of its own; JoinSnoc states how the parts and separators are laid out |
| JsText.JoinSnoc | mcp-cv-server/src/server.ts:73 | the separator stands between every two neighbouring parts: joining one more part appends the separator and that part |
| JsText.JsNumberDecimal | mcp-cv-server/src/server.ts:52 | `Number` reads back every decimal numeral: the round trip from a number to its numeral and back |
| Ranking.Score | mcp-cv-server/src/server.ts:47-54 | no contract of its own; its ranking is stated by DatedScore, StatusOutranksDates, EmptyDateScoresZero and UnreadableDateScoresZero |
| Ranking.YearMonthNumber | mcp-cv-server/src/server.ts:51-52 | dropping the '-' of a "YYYY-MM" date gives the number YYYY*100 + MM |
| Ranking.DatedScore | mcp-cv-server/src/server.ts:47-54 | an item ranked by a "YYYY-MM" date scores YYYY*100 + MM, below the "scheduled" and "present" scores |
| Ranking.ScoreIsChronological | mcp-cv-server/src/server.ts:47-54 | on "YYYY-MM" dates one item scores lower than another exactly when its date is earlier |
| Ranking.StatusOutranksDates | mcp-cv-server/src/server.ts:48-50 | an end of "present" in any case scores 99999999 and one of "scheduled" scores 99999998, both above every "YYYY-MM" date |
| Ranking.EmptyDateScoresZero | mcp-cv-server/src/server.ts:51-53 | an item with neither an end nor a start date scores 0, as `Number` of the fallback 0 |
| Ranking.UnreadableDateScoresZero | mcp-cv-server/src/server.ts:51-53 | a date that is not a number once its first '-' is gone scores 0 |
| Ranking.SortBy | mcp-cv-server/src/server.ts:55 | the sorted copy has the length of the list; its order, the permutation and the stability are stated by the lemmas below |
| Ranking.SortByScore | mcp-cv-server/src/server.ts:55 | no contract of its own; SortBy instantiated with Score, so SortIsOrderedPermutation, SortIsStable and SortHead apply to it |
| Ranking.InsertKeepsItems | mcp-cv-server/src/server.ts:55 | inserting adds exactly the inserted element |
| Ranking.InsertKeepsOrder | mcp-cv-server/src/server.ts:55 | inserting into a descending list keeps it descending |
| Ranking.InsertKeepsTies | mcp-cv-server/src/server.ts:55 | the inserted element goes ahead of the elements it ties with |
| Ranking.SortIsOrderedPermutation | mcp-cv-server/src/server.ts:55 | the sorted copy is a permutation of the work list, in descending order of score |
| Ranking.SortIsStable | mcp-cv-server/src/server.ts:55 | items with equal scores keep their relative order |
| Ranking.SortHead | mcp-cv-server/src/server.ts:55 | the head of the sorted copy is the earliest item of maximal score |
| Ranking.PickLastRole | mcp-cv-server/src/server.ts:43-56 | nothing exactly when `work` is absent or empty; otherwise the earliest item of maximal score |
| Ranking.OngoingRoleIsLast | mcp-cv-server/src/server.ts:43-56 | with every other item dated "YYYY-MM" or also ongoing, the last role is the first item ending "present" |
| Patterns.Q1Matches | mcp-cv-server/src/server.ts:63 | no contract of its own: the predicate is the pattern ("what" or "which", any text, "role" or "title", any text, "last " and "position", "job" or "role", no line terminator in the gaps); LastRoleQuestionMatchesQ1 exercises it |
| Patterns.Q2Matches | mcp-cv-server/src/server.ts:70 | no contract of its own: the predicate is the three alternatives of the pattern; Q2ThirdAlternativeIsRedundant relates them |
| Patterns.Q2ThirdAlternativeIsRedundant | mcp-cv-server/src/server.ts:70 | the alternative "worked at which companies" never changes whether the company-list pattern matches |
| Patterns.ClassRun | mcp-cv-server/src/server.ts:78 | the greedy `[a-z0-9 .&-]+` run is maximal: every character in it is in the class and the next one is not |
| Patterns.CaptureAt | mcp-cv-server/src/server.ts:78 | the capture is non-empty, made of class characters, and the longest such run after "work(ed) at " |
| Patterns.FindCapture | mcp-cv-server/src/server.ts:78-79 | no capture exactly when the pattern matches nowhere; otherwise the capture of the leftmost match |
| Patterns.LeftmostCapture | mcp-cv-server/src/server.ts:78 | the capture found is that of the leftmost match |
| CvQuery.Normalize | mcp-cv-server/src/server.ts:59 | the normalised question has no capital letter and no whitespace at either end |
| CvQuery.TrimKeepsLowerCase | mcp-cv-server/src/server.ts:59 | trimming a lower-cased question leaves it lower-cased |
| CvQuery.Companies | mcp-cv-server/src/server.ts:71 | no contract of its own; CompaniesAreTheNamedOnes and CompaniesOfAppend state which names are kept and in what order |
| CvQuery.CompaniesAreTheNamedOnes | mcp-cv-server/src/server.ts:71 | a name is listed exactly when it is non-empty and some work item has it, and the list is no longer than the work list |
| CvQuery.CompaniesOfAppend | mcp-cv-server/src/server.ts:71 | company names keep the order of the work list |
| CvQuery.FindCompany | mcp-cv-server/src/server.ts:81-83 | nothing exactly when no lower-cased company equals the key; otherwise the first item whose does |
| CvQuery.AnswerCvQuestion | mcp-cv-server/src/server.ts:58-98 | no contract of its own; the four rule lemmas below state its answer case by case, in the order the patterns are tried |
| CvQuery.LastRoleRule | mcp-cv-server/src/server.ts:63-67 | when the last-role pattern matches, the answer is "I couldn't find any work entries." for an empty work list and otherwise describes the earliest item of maximal score |
| CvQuery.CompaniesRule | mcp-cv-server/src/server.ts:70-75 | when only the company pattern matches, the answer is "No companies found." exactly when no item names a company, and otherwise "Companies: " + the names joined by ", " + "." |
| CvQuery.StintRule | mcp-cv-server/src/server.ts:78-88 | when neither earlier pattern matches, the leftmost "work(ed) at" capture selects the first item with that company, and the answer describes its dates, with "?" for missing ones |
| CvQuery.HelpRule | mcp-cv-server/src/server.ts:91-97 | when no pattern matches, or the captured company is not in the work list, the answer is the five-line help text |
| CvScenarios.NormalizeLastRoleQuestion | mcp-cv-server/src/server.ts:59 | the suggested question normalises to its lower-case spelling |
| CvScenarios.LastRoleQuestionMatchesQ1 | mcp-cv-server/src/server.ts:63 | the normalised question matches the last-role pattern |
| CvScenarios.OnlyRoleIsLast | mcp-cv-server/src/server.ts:63-66 | with a single work item, a last-role question is answered with that item |
| CvScenarios.LastRoleScenario | mcp-cv-server/src/server.ts:63-66 | the question "What role did I have at my last position?", asked of a résumé whose one item ends "present", is answered "Your last role: Engineer at Acme (present)." |
| Sessions.BoundTransport | mcp-cv-server/src/server.ts:213-214 | a transport is found exactly when the header is present, non-empty and a key of the table |
| Sessions.RouteRequest | mcp-cv-server/src/server.ts:212-235 | a bound transport is reused whatever the body; otherwise an initialize body creates a transport and any other body is rejected |
| Sessions.SessionTable.constructor | mcp-cv-server/src/server.ts:209-210 | the table starts empty |
| Sessions.SessionTable.Handle | mcp-cv-server/src/server.ts:212-237 | reuse, a fresh transport not bound to any id, or a 400 with the no-session message; the table is unchanged in every case |
| Sessions.SessionTable.OnSessionInitialized | mcp-cv-server/src/server.ts:219-222 | the generated id is bound to the new transport, replacing any entry under that id, and nothing else changes |
| Sessions.SessionTable.OnClose | mcp-cv-server/src/server.ts:224-226 | only the key under the transport's own session id is deleted; without an id nothing changes |
| Sessions.InitializeReuseClose | mcp-cv-server/src/server.ts:212-237 | initialise, reuse under the id (even with an initialize body), close: the next request under the id gets the 400 |
| Sessions.TwoClients | mcp-cv-server/src/server.ts:212-237 | two sessions get two transports and each id reaches its own; closing one leaves its id refused |
| Sessions.DuplicateId | mcp-cv-server/src/server.ts:219-226 | a duplicate id is taken over by the later transport, and the earlier one's close deletes that entry |
| Sessions.LookupAsWritten | mcp-cv-server/src/server.ts:214 | `sessions[sid]` on a plain object finds an own entry, an inherited `Object.prototype` member, or nothing |
| Sessions.RouteAsWritten | mcp-cv-server/src/server.ts:213-237 | as written, a request is dispatched to an inherited member exactly when its session id is a prototype member name and not a key of the table, and a transport is opened exactly for an initialize request whose lookup finds nothing |
| Sessions.PrototypeKeyIsDispatched | mcp-cv-server/src/server.ts:213-217 | an initialize request with session id "constructor" is dispatched to an inherited member as written, and opens a session as corrected |
| Sessions.AsWrittenAgreesOffPrototype | mcp-cv-server/src/server.ts:213-237 | off the prototype's member names the handler as written routes exactly as the corrected route, and dispatches only to transports in the table |
| Mail.Field | mcp-cv-server/src/server.ts:167 | destructuring the body (an empty object when the body is falsy) reads a field the object holds as its value, and reads `undefined` from anything but an object and from an object without the field; this holds for `to`, `subject` and `body`, which no prototype carries |
| Mail.CheckSendEmail | mcp-cv-server/src/server.ts:167-171 | a request is sent, with its fields as given, exactly when `to`, `subject` and `body` are all truthy; otherwise it gets 400 and "to, subject, body are required" |
| Mail.NonObjectBodyIsRefused | mcp-cv-server/src/server.ts:167-170 | a body that is not an object, or an empty object, always gets the 400 |
| Mail.StringFieldsAreSent | mcp-cv-server/src/server.ts:167-171 | three non-empty strings pass the check unchanged, whatever other fields the body has |
| Mail.SmtpPort | mcp-cv-server/src/server.ts:125 | an absent or empty `SMTP_PORT` gives 587, otherwise the number it spells |
| Mail.MakeTransport | mcp-cv-server/src/server.ts:105-132 | the test account is used exactly when host, user or password is missing. Its channel sends from "Demo Sender <user>". The relay's channel uses the configured host, port and credentials without TLS, and sends from `SMTP_FROM` or else `SMTP_USER`. The sender is never empty |
| Mail.ConfiguredRelayIgnoresTestAccount | mcp-cv-server/src/server.ts:108-109 | with the relay configured, the test account plays no part |
| Mail.ConfiguredPortIsUsed | mcp-cv-server/src/server.ts:125 | a port written as a decimal numeral is the port used |
| Mail.SendEmailToolText | mcp-cv-server/src/server.ts:201 | the text starts with "Queued email: " and the message id |
| Mail.ToolTextRoundTrip | mcp-cv-server/src/server.ts:201-203 | the text can be read back into the message id and the preview address, which is present exactly for a test account that produced one |
| Mail.PreviewLineIffTestWithPreview | mcp-cv-server/src/server.ts:202-203 | the text has a second line exactly when the mail went to a test account with a preview address |

## Left out

- Reading `resume.json` (`loadResume`): the résumé is a parameter. `basics`, `skills`, `location` and `summary` are never read, so they are not modelled.
- Everything nodemailer does: creating a transport, the network call that asks for a test account (its outcome is a parameter of `MakeTransport`), sending, and `getTestMessageUrl`. The message id and preview URL are parameters of `SendEmailToolText`.
- The remaining parts of `/send-email`: the response `{ ok: true, ...result }` and the 500 answer when sending throws.
- The MCP SDK: transport framing, `isInitializeRequest` (a boolean parameter of `Handle`), `mcpServer.connect`, `handleRequest`, and the generation of session ids by `randomUUID` (a parameter of `OnSessionInitialized`).
- zod's argument validation of the two tools, including the e-mail format check.
- Express itself, the `/`, `/health` and `/ask` routes, the `ask_cv` tool (it returns `answerCvQuestion`'s text unchanged) and the listening port. The frontend files are not part of this model.
- Concurrency: requests are modelled one at a time, as the single-threaded event loop runs them between awaits.
- JsText.ToLower: maps only the ASCII letters; JavaScript's `toLowerCase` also maps other Unicode letters.
- JsText.JsNumber: reads only strings of decimal digits. `Number` also accepts surrounding whitespace, a sign, a fraction, an exponent, the `0x`, `0o` and `0b` prefixes and the word `Infinity`, which this model treats as NaN (score 0, or no port). So an item whose end is "Infinity" scores 0 here, whereas JavaScript ranks it above "present".
- Ranking.Score: scores are exact non-negative integers. JavaScript reads a date string as a double, so it rounds digit strings of more than about 16 significant digits: two distinct long dates can score the same there and keep their list order, where this model orders them by their exact values. Strings of 310 or more digits read as Infinity, and for two such items `score(b) - score(a)` is NaN, which the comparator's contract does not allow. Fractional and negative scores from the other syntaxes of `Number` are not modelled either.
- Ranking.WorkItem: `title` and `company` are required strings, so answers never show the text "undefined" for a missing one.
- Mail.JsValue: numbers are finite reals, so NaN (which is falsy) does not arise in a request body.
- Sessions.SessionTable.OnSessionInitialized: assumes the protocol layer reports a session id at most once per transport; a session id of "__proto__", which would replace the object's prototype instead of adding an entry, is not modelled, since generated ids are UUIDs.

## Findings

| source | as written | input that shows it | evidently intended | confidence | as-written member | corrected member |
|---|---|---|---|---|---|---|
| mcp-cv-server/src/server.ts:210-214 | `sessions` is a plain `{}`, so `sessions[sid]` also returns the members inherited from `Object.prototype`. Such a member is truthy, so the handler neither opens a session nor answers 400. It calls `handleRequest` on it, which is not a function, and the request fails with a TypeError | an initialize request with header `mcp-session-id: constructor` (or `toString`, `__proto__`, ...) and an empty table | only the table's own entries count as sessions: this request opens a session, and a non-initialize one gets the 400 | medium; not executed | Sessions.RouteAsWritten, shown by Sessions.PrototypeKeyIsDispatched | Sessions.RouteRequest, used by Sessions.SessionTable.Handle; Sessions.AsWrittenAgreesOffPrototype |
