# GestionTareas: due-date notifications and owner-scoped task handlers, in Dafny

This project models two parts of a small task manager.

**The client's due-date scheduler** (`notificationService.js`):
- `checkUpcomingTasks` keeps the tasks that are not `'completada'` and whose due date, cut to the start of its day, lies between today and two days later.
- `notifyUpcomingTasks` splits those tasks into three groups: due today, due tomorrow, and later.
- For each non-empty group it sends one browser notification. The notification has a headline that gives the group's size in the right grammatical number, the titles joined by `", "`, a fixed tag, and high priority only for today's group.
- `requestNotificationPermission` turns the browser's permission state and the user's answer to the prompt into a yes or no.
- `sendBrowserNotification` shows nothing unless permission is granted.

**The server's task handlers** (`taskController.js`) work on one collection shared by all users:
- `createTask` and `updateTask` validate the body against the task schema.
- `updateTask` and `deleteTask` check the document id. `createTask` stamps the new task with the caller's id, and the other three handlers filter their database call by it.
- The model shows which status each guard answers with. It shows that a caller sees, changes and removes only their own tasks, and that every other record is left as it was.

Modelling choices:
- Dates are JavaScript time values in milliseconds, read as local wall-clock time. An Invalid Date is `None`.
- `setHours(0, 0, 0, 0)` is `t - t % 86400000`.
- `setDate(getDate() + k)` adds `k` whole days.
- The clock is one `now` parameter, read once for both places the code reads it.
- The browser's notification state is a `NotificationCenter` object. It records the notifications shown and the prompts displayed. The tags of the requests whose `Notification` constructor throws are one of its fields, so each send can fail on its own.
- The user's answer to the permission prompt is an input.
- On the server, the collection is a `TaskStore` class with a `map<Id, Task>` field. A database failure is a boolean input. The id the database gives a new document is an input.
- Date parsing in the body is an injected function `parseDate`.

Files:
- `wrappers.dfy`: `Option` and `Result`.
- `text.dfy`: decimal numerals and `join(', ')`, with their inverses.
- `classifier.dfy`: `checkUpcomingTasks`.
- `buckets.dfy`: the three groups.
- `messages.dfy`: the notification requests.
- `notifications.dfy`: permission, sending and `notifyUpcomingTasks`.
- `taskcontroller.dfy`: the schema and the four handlers.

What the program does, as modelled:
- The window is three days: today, tomorrow and the day after (`twoDaysFromNow`). So the "later" group holds exactly the tasks due the day after tomorrow, and those tasks are in the returned list.
- A completed task is recognised by the status `'completada'`, the value the task model uses.
- A task whose date is missing or invalid is dropped without any report.
- `notifyUpcomingTasks` does not query the permission itself. Each send checks it.
- A failed send (the constructor throws) is caught and reported as `false`. The later sends still happen, and the returned list does not change.

## Model

| member | source | states |
|---|---|---|
| Classifier.StartOfDay | frontend/src/services/notificationService.js:86-87 | the normalised time is the start of a day and lies at most one day before the original time |
| Classifier.IsUpcoming | frontend/src/services/notificationService.js:84-89 | a task the filter callback accepts is not `'completada'` and has a valid due date |
| Classifier.FilterUpcoming | frontend/src/services/notificationService.js:83-90 | a task is kept iff it passes the filter callback, each kept task as often as it occurs in the input and every other task never; the result is an order-preserving subsequence of the input |
| Classifier.CheckUpcomingTasks | frontend/src/services/notificationService.js:68-91 | non-array or empty input gives `[]`; a task is in the result iff it is in the input, not completed, and due on today, tomorrow or the day after (in calendar days), with its multiplicity in the input; the result is a subsequence of the input |
| Classifier.UpcomingIsWithinTwoDays | frontend/src/services/notificationService.js:73-89 | the millisecond comparisons against `today` and `twoDaysFromNow` select exactly the tasks whose calendar day is between today and today+2 |
| Classifier.CompletedNeverUpcoming | frontend/src/services/notificationService.js:84 | a `'completada'` task is never reported, whatever its due date |
| Classifier.OverdueOrInvalidDropped | frontend/src/services/notificationService.js:86-89 | a task with an Invalid Date or a day before today is never reported |
| Buckets.InBucket | frontend/src/services/notificationService.js:109-125 | a task a group callback accepts has a valid due date, on or after the group's first day |
| Buckets.BucketTasks | frontend/src/services/notificationService.js:109-125 | a task is in a group iff it is upcoming and its normalised date is today / tomorrow / after tomorrow, as often as in `upcomingTasks`; the group keeps the input order |
| Buckets.BucketsExclusive | frontend/src/services/notificationService.js:109-125 | no task satisfies two group callbacks |
| Buckets.BucketsDisjoint | frontend/src/services/notificationService.js:109-125 | `tasksToday`, `tasksTomorrow` and `tasksLater` are pairwise disjoint |
| Buckets.BucketIsDay | frontend/src/services/notificationService.js:109-125 | on an upcoming task the groups are days today, today+1 and today+2; "later" is exactly the day after tomorrow |
| Buckets.UpcomingInOneBucket | frontend/src/services/notificationService.js:109-125 | every upcoming task satisfies exactly one group callback |
| Buckets.BucketsCover | frontend/src/services/notificationService.js:109-125 | the multisets of the three groups add up to the multiset of upcoming tasks |
| Buckets.BucketsPartition | frontend/src/services/notificationService.js:109-125 | the concatenation of the three groups is a permutation of `upcomingTasks` |
| Buckets.BucketSizes | frontend/src/services/notificationService.js:109-125 | the three group sizes add up to the number of upcoming tasks |
| Text.NatToString | frontend/src/services/notificationService.js:130 | the count interpolated into a headline is a non-empty run of decimal digits without a leading zero |
| Text.NumeralRoundTrip | frontend/src/services/notificationService.js:130 | reading the interpolated numeral back gives the count |
| Text.NumeralInjective | frontend/src/services/notificationService.js:130 | distinct counts give distinct numerals |
| Text.NumeralPrefixUnique | frontend/src/services/notificationService.js:130 | a numeral followed by a space is determined by the string it starts |
| Text.Join | frontend/src/services/notificationService.js:132 | joining one title gives that title, with no separator |
| Text.Split | frontend/src/services/notificationService.js:132 | the reference inverse of `join(', ')`: cutting a body at `", "` gives at least one piece |
| Text.SplitJoin | frontend/src/services/notificationService.js:132 | the body `titles.join(', ')` splits back into exactly the titles, in order |
| Text.JoinLength | frontend/src/services/notificationService.js:132 | the body is as long as the titles plus two characters between each pair |
| Messages.Tag | frontend/src/services/notificationService.js:133-154 | a request's tag is one of `tasks-today`, `tasks-tomorrow`, `tasks-upcoming` |
| Messages.Headline | frontend/src/services/notificationService.js:128-157 | the headline of each group is the template literal word for word: `¡n tarea vence hoy!` / `¡n tareas vencen hoy!`, `n tarea(s) vence(n) mañana`, `n tarea(s) próxima(s) a vencer`, singular exactly for n = 1 |
| Messages.HeadlineExampleToday | frontend/src/services/notificationService.js:130 | one task due today gives the headline `¡1 tarea vence hoy!` |
| Messages.HeadlineExampleTomorrow | frontend/src/services/notificationService.js:141 | one task due tomorrow gives `1 tarea vence mañana` |
| Messages.HeadlineExampleLater | frontend/src/services/notificationService.js:151 | one later task gives `1 tarea próxima a vencer` |
| Messages.HeadlinePluralToday | frontend/src/services/notificationService.js:130 | two tasks due today give `¡2 tareas vencen hoy!` |
| Messages.HeadlinePluralTomorrow | frontend/src/services/notificationService.js:141 | three tasks due tomorrow give `3 tareas vencen mañana` |
| Messages.HeadlinePluralLater | frontend/src/services/notificationService.js:151 | four later tasks give `4 tareas próximas a vencer` |
| Messages.PhrasesDiffer | frontend/src/services/notificationService.js:130 | the singular and plural phrases differ for every group |
| Messages.HeadlineAgreesInNumber | frontend/src/services/notificationService.js:128-157 | the headline is the count followed by the singular phrase ('tarea vence' / 'tarea próxima') iff the count is 1, and by the plural phrase otherwise |
| Messages.HeadlineDeterminesCount | frontend/src/services/notificationService.js:128-157 | equal headlines of the same group mean equal counts: the headline states the count exactly |
| Messages.Titles | frontend/src/services/notificationService.js:132 | `map(t => t.title)` keeps length and order |
| Messages.Message | frontend/src/services/notificationService.js:128-157 | a request's body splits back into exactly the group's titles, in order (titles without a comma); only a `'high'` priority can occur |
| Messages.TagsDistinct | frontend/src/services/notificationService.js:133 | `tasks-today`, `tasks-tomorrow` and `tasks-upcoming` are three different tags |
| Messages.MaybeMessage | frontend/src/services/notificationService.js:128-157 | each `if (tasksX.length > 0)` contributes one request, the group's message, iff the group is non-empty |
| Messages.BuildRequests | frontend/src/services/notificationService.js:128-157 | at most three requests, and none for no upcoming task |
| Messages.RequestsOrdered | frontend/src/services/notificationService.js:128-157 | at most three requests, in the order today, tomorrow, later, so no tag repeats |
| Messages.RequestIffNonEmpty | frontend/src/services/notificationService.js:128-157 | a group has its request iff the group is non-empty |
| Messages.OnlyTodayIsHighPriority | frontend/src/services/notificationService.js:128-157 | a request has `priority: 'high'` iff it is today's, and no other priority occurs |
| Messages.RequestsCoverUpcoming | frontend/src/services/notificationService.js:99-157 | over upcoming tasks, no request is built iff there is no upcoming task; every upcoming task is in some group whose request is built |
| NotificationService.PermissionDecision | frontend/src/services/notificationService.js:7-29 | true only when supported and not denied; true when already granted; after an undecided state, true iff the prompt answered 'granted' (a throwing prompt gives false) |
| NotificationService.NextPermission | frontend/src/services/notificationService.js:22-24 | the browser's permission changes only when a prompt is shown |
| NotificationService.AnswerIsRemembered | frontend/src/services/notificationService.js:13-20 | after a prompt answered 'granted' or 'denied', asking again gives the same answer with no prompt |
| NotificationService.RequestNotificationPermission | frontend/src/services/notificationService.js:7-29 | returns the decision; a prompt is shown (and counted) only for a supported, undecided permission |
| NotificationService.NotificationCenter.Permits | frontend/src/services/notificationService.js:38 | the send guard passes only where notifications are supported and the permission decision is yes |
| NotificationService.NotificationCenter.Delivers | frontend/src/services/notificationService.js:38-49 | a request is shown only if the guard passes (and its own constructor does not throw) |
| NotificationService.SendBrowserNotification | frontend/src/services/notificationService.js:37-61 | returns true and shows exactly the request iff supported, granted and its constructor does not throw; otherwise returns false and shows nothing |
| NotificationService.Shown | frontend/src/services/notificationService.js:42-60 | the requests a browser shows out of a sequence of sends: exactly those whose constructor does not throw, in order |
| NotificationService.ShownCount | frontend/src/services/notificationService.js:42-60 | each request whose constructor does not throw is shown exactly as many times as it was sent, every other request never |
| NotificationService.ShownAppend | frontend/src/services/notificationService.js:128-157 | what consecutive sends show is what each batch shows, concatenated: a failed send does not affect the others |
| NotificationService.NotifyBucket | frontend/src/services/notificationService.js:128-157 | one guarded send: a non-empty group's message is shown iff the guard passes and its constructor does not throw; an empty group shows nothing |
| NotificationService.NotifyUpcomingTasks | frontend/src/services/notificationService.js:98-163 | returns the upcoming tasks whatever the sends return; when the guard passes, shows exactly the requests of the non-empty groups, in order, except those whose own constructor throws; nothing otherwise |
| NotificationService.SendsAreIndependent | frontend/src/services/notificationService.js:128-157 | every built request whose constructor does not throw is shown, whichever other sends fail |
| NotificationService.DeniedScenario | frontend/src/services/notificationService.js:98-163 | with A due today, B tomorrow, C completed and permission denied: nothing is shown and [A, B] is returned |
| NotificationService.ScenarioFilter | frontend/src/services/notificationService.js:83-90 | the filter keeps the two upcoming tasks of the scenario, in order, and drops the third |
| TaskController.Status | backend/controllers/taskController.js:13-79 | the handlers answer 200, 201, 400, 404 or 500; 400 exactly for a bad id or bad data |
| TaskController.IsValidObjectId | backend/controllers/taskController.js:37-38 | `ObjectId.isValid` accepts only 12- or 24-character ids, and every 12-character one |
| TaskController.ObjectIdExamples | backend/controllers/taskController.js:37-38 | a 24-digit hexadecimal id passes; `"123"` and a 24-character id with a `g` fail |
| TaskController.ValidateField | backend/controllers/taskController.js:6-11 | per key: `title` accepts exactly non-empty strings, `description` exactly strings, `dueDate` exactly numbers and parsable texts that are valid time values, `completed` exactly booleans, each as the body's own value; any other key, `null` or object is rejected |
| TaskController.Validate | backend/controllers/taskController.js:6-11 | accepts iff `title` is present and every key passes; what it accepts is well-formed, keeps the body's keys and holds each key's validated value; any unknown key is an error |
| TaskController.BodyCannotSetOwner | backend/controllers/taskController.js:6-11 | a body naming `user` or `_id` is rejected |
| TaskController.Merge | backend/controllers/taskController.js:45-49 | an update sets the fields it names, keeps the others, and leaves a well-formed task |
| TaskController.Faulty | backend/controllers/taskController.js:44-58 | a 12-character caller id faults only when the database fails; an id of any length other than 12 or 24 always faults (the cast throws into the `catch`) |
| TaskController.OwnedBy | backend/controllers/taskController.js:27 | exactly the tasks whose `user` is the caller |
| TaskController.TaskStore.CreateTask | backend/controllers/taskController.js:13-23 | 400 and no change on invalid data; 500 and no change on a fault; otherwise exactly one new task with the validated fields owned by the caller, and 201 |
| TaskController.TaskStore.GetTasks | backend/controllers/taskController.js:25-32 | exactly the caller's tasks, or 500 on a fault |
| TaskController.TaskStore.UpdateTask | backend/controllers/taskController.js:34-59 | bad id gives 400 before the body is checked; bad data gives 400; a fault gives 500; otherwise the record with that id owned by the caller changes, only by the body's fields, and any other id gives 404 with no change; other records untouched |
| TaskController.TaskStore.DeleteTask | backend/controllers/taskController.js:61-79 | bad id gives 400; a fault gives 500; otherwise the record with that id owned by the caller is removed, and any other id gives 404 with no change; all other records survive |
| TaskController.ForeignTaskIsSafe | backend/controllers/taskController.js:34-79 | an update or delete of another user's task neither updates nor deletes, and the collection stays as it was |

## Left out

- The browser's `Notification` object itself: icons, badge, `silent`, the `onclick` handler that focuses the window and closes the notification, and the handle returned. The sink is a recorded list of requests.
- Console logging in the error and unsupported paths. It has no effect on results.
- `async`/`await`: the permission prompt is an input (`PromptOutcome`), not a suspension.
- NotificationService.NextPermission: the browser recording the user's answer as the new permission is browser behaviour, not code in the source. It is modelled only so that repeated requests can be stated.
- Real `Date` arithmetic: time zones, daylight-saving days (where a day is not 24 hours) and `new Date(...)` parsing of the stored due date. Tasks carry an already converted time value or `None`.
- The two clock reads in the source (for the filter and for the groups) are one `now`. The midnight race between them is not modelled.
- Messages.Message: the body round trip is stated only for titles without a comma, for the reason given for Text.SplitJoin.
- Text.SplitJoin: the body round trip is stated only for titles without a comma. A title with ", " inside cannot be told apart from two titles.
- JavaScript strings are sequences of UTF-16 code units, while Dafny strings are sequences of characters. A title may hold any character. The model only concatenates texts and cuts them at `", "`, and both characters of that separator are single code units, so both operations give the same pieces on either representation. Lengths (Text.JoinLength) are counted in characters, not code units.
- JSON numbers are integers here. A fractional `dueDate`, which Joi accepts and `Date` truncates to whole milliseconds, is not modelled.
- Joi internals: the error details in the 400 reply, Joi's conversion of `"true"`/`"false"` strings to booleans, and its exact date-string grammar. Date strings go through the injected `parseDate`.
- A `null` or `undefined` element in the task array makes the filter callback throw at `task.status`. Tasks here are values, so that exception is not modelled.
- `ObjectId` hexadecimal ids that differ only in letter case name the same document, but they are distinct keys of the model's map. An update or delete under a differently cased id answers 404 here.
- Mongoose internals: strict mode silently dropping `completed` (the schema has `status` instead), the `status` default, timestamps, and the fact that the same ObjectId can be written as 12 bytes or as 24 hex digits. Stored fields are the validated ones.
- `ObjectId.isValid` differs between driver versions. The model uses "12 characters, or 24 hexadecimal digits".
- The reason a database call fails is not modelled. Any failure is the input `fails`, and a failure leaves the collection unchanged.
- The JWT middleware, the user and auth controllers, configuration and bootstrap files. They hold no logic of the core: the caller's id is a parameter.
