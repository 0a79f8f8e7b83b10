# A verified model of the 5ify to-do core

5ify is a Next.js to-do application. A user keeps an ordered list of tasks, each
with up to five subtasks, and can have a language model break a task down into
generated subtasks. Each user's whole tree is stored as one JSON string in a
user record keyed by `authorId`. That record is created and deleted by
identity-provider webhooks.

This project models four pieces of that application in Dafny and proves
properties about them.

- **The task page** (`app/app/page.tsx`). `TaskTree` holds the `Task`
  datatype and the pure tree updates that the page's handlers build with
  `map`, `filter` and `slice`. `TaskPage.TaskManager` is the page component's
  state (`tasks`, `newTask`, `editingTask`, `editText`, `breakdownTask`,
  `subtaskCount`). It is a class whose methods replace that state the way the
  handlers' `set...` calls do. Its `Valid()` invariant says a task has at most
  five subtasks and a subtask has no subtasks. Every handler keeps it.
- **The subtask-generation endpoint** (`app/app/api/generate-subtasks/route.ts`).
  `GenerateSubtasks` models request validation, the API-key check, the cleaning
  of the model's raw reply (`trim`, then `/^```json\s*/i`, then `/```$/`), and
  how each outcome maps to 400, 500 or success.
- **The tasks endpoint** (`app/app/api/tasks/route.ts`). `TasksRoute` models
  `GET` and `POST` over the user store with their 400/404/500/200 outcomes.
  Each is written twice: as a pure function, and as a method over
  `UserModel.UserStore` that is proved equal to that function.
- **The webhook** (`app/app/api/webhooks/route.ts`). `WebhooksRoute` models
  the guard chain (secret, then `svix-*` headers, then signature, then database
  connection) and the three event handlers. It uses the same function-plus-method
  pattern.

`Js` models the JavaScript semantics the code relies on: JSON values,
truthiness, destructuring, and the white-space set shared by `trim` and the
regular-expression class `\s`. `UserModel` is the user collection from
`app/app/models/User.ts`: a map from `authorId` to the encoded tasks string,
with `"[]"` as the default.

The following become parameters of the model:

- ids drawn from `Date.now()` and `Math.random()`;
- the language model's reply, or its failure;
- `JSON.parse` and `JSON.stringify`;
- the Svix signature check;
- whether the database connection succeeds;
- how the query layer casts an id into a key.

Behaviour of the code worth knowing (the model follows the code):

- There is no line-splitting fallback when parsing the model's reply.
- The parsed reply is not truncated to `count`.
- `slice(0, 5)` also cuts pre-existing subtasks when there were more than five.
- `saveEdit` leaves `editText` as it was; only `cancelEdit` clears it.
- In both tasks handlers the database connection is made before `authorId` is
  checked, so a failed connection answers 500 even for a request with no
  `authorId`.

## Model

| member | source | states |
|---|---|---|
| Js.TrimStart | app/app/api/generate-subtasks/route.ts:79 | the result is a suffix of the input and does not start with white space (what `\s*` consumes after the fence) |
| Js.TrimEnd | app/app/api/generate-subtasks/route.ts:78 | the result is a prefix of the input and does not end with white space |
| Js.TrimStartDropsWhitespace | app/app/api/generate-subtasks/route.ts:78 | everything `trimStart` removes is white space |
| Js.TrimEndDropsWhitespace | app/app/api/generate-subtasks/route.ts:78 | everything `trimEnd` removes is white space |
| Js.TrimCutsWhitespaceEnds | app/app/api/generate-subtasks/route.ts:78 | `trim` returns a slice of the input with only white space cut off either side, and the slice neither starts nor ends with white space |
| Js.TrimEmptyIffAllWhitespace | app/app/page.tsx:51 | `s.trim() !== ""` exactly when some character of `s` is not white space |
| Js.TrimIdempotent | app/app/api/generate-subtasks/route.ts:78 | trimming twice is the same as trimming once |
| TaskTree.MapMatching | app/app/page.tsx:66-81 | `map` over the tasks keeps the length, applies the update to each task whose id matches, and leaves every other task as it is |
| TaskTree.FilterOut | app/app/page.tsx:93-95 | `filter` keeps exactly the tasks whose id differs, and the result is no longer than the input |
| TaskTree.FirstIndex | app/app/page.tsx:151-153 | `find` stops at the first task with the id, or finds none exactly when no task has it |
| TaskTree.AddTask | app/app/page.tsx:50-62 | one task is appended exactly when the input is not blank; the earlier tasks are unchanged; the new task is fresh and carries the untrimmed text |
| TaskTree.BreakdownCount | app/app/page.tsx:108 | the proposed count is `min(5 - subtasks.length, 3)`: at most 3, never beyond the cap, and equal to one of the two bounds |
| TaskTree.MapMatchingNoMatch | app/app/page.tsx:66-81 | when no task has the id, the map returns the tasks unchanged |
| TaskTree.FilterOutNoMatch | app/app/page.tsx:93-95 | filtering out an id no task has changes nothing |
| TaskTree.FilterOutAppend | app/app/page.tsx:87-102 | filtering distributes over concatenation, so the remaining tasks keep their relative order |
| TaskTree.FilterOutUnique | app/app/page.tsx:87-102 | when ids are unique, filtering out the id at position k removes exactly that position |
| TaskTree.FilterOutAt | app/app/page.tsx:87-102 | when only position k carries its id, filtering that id out removes exactly position k and keeps the order |
| TaskTree.AddTaskSpec | app/app/page.tsx:50-62 | input made only of white space (or empty) leaves the list unchanged; any other input gives the list plus the new task at its end |
| TaskTree.ToggleTopLevel | app/app/page.tsx:64-83 | with no subtask id, a task with the id flips `completed` and keeps every other field; every other task is unchanged |
| TaskTree.ToggleSubtask | app/app/page.tsx:68-77 | with a subtask id, the parent keeps all of its own fields, its `completed` included; matching subtasks flip `completed`; other subtasks are unchanged; every task whose id differs from the parent id is unchanged |
| TaskTree.ToggleSubtaskExactlyOne | app/app/page.tsx:64-83 | when ids are unique, toggling subtask k of task i changes exactly one place in the tree: that subtask's `completed` |
| TaskTree.FlipSubtasksTwice | app/app/page.tsx:71-75 | flipping the matching subtasks twice restores them |
| TaskTree.ToggleInvolution | app/app/page.tsx:64-83 | toggling twice with the same arguments restores the tree |
| TaskTree.ToggleNoMatch | app/app/page.tsx:64-83 | an id that matches nothing, or a subtask id absent under the addressed task, leaves the tree unchanged |
| TaskTree.ToggleExactlyOne | app/app/page.tsx:64-83 | for a top-level task, when ids are unique, the tree changes in exactly one place: that task's `completed` |
| TaskTree.RemoveTopLevel | app/app/page.tsx:85-104 | with no subtask id, no remaining task has the id, so none of its subtasks is reachable; every other task remains; nothing new appears; an unknown id changes nothing |
| TaskTree.RemoveTopLevelUnique | app/app/page.tsx:85-104 | when ids are unique, removing task k gives the list without position k, with the order kept |
| TaskTree.RemoveSubtask | app/app/page.tsx:89-97 | with a subtask id, only the addressed parent's subtasks are filtered (the removed id is gone, all others stay); the parent's other fields and every other task are unchanged |
| TaskTree.BreakdownCountFits | app/app/page.tsx:106-109 | for a task with fewer than five subtasks the count is between 1 and 3 and never overshoots the cap |
| TaskTree.AddGeneratedSpec | app/app/page.tsx:127-139 | the target's subtasks become the old ones followed by the batch in order, cut to five; the target's other fields and every other task are unchanged |
| TaskTree.FormattedSubtasksAreFresh | app/app/page.tsx:119-125 | each generated subtask carries its text and id, is not completed, has no subtasks and is not collapsed |
| TaskTree.LoadEditTextTopLevel | app/app/page.tsx:149-154 | with a falsy parent id, the loaded text is that of the first task with the id |
| TaskTree.LoadEditTextSubtask | app/app/page.tsx:149-154 | with a parent id, the loaded text is that of the first matching subtask under the first matching parent |
| TaskTree.LoadEditTextMissing | app/app/page.tsx:149-154 | when the addressed task is not found, "" is loaded |
| TaskTree.SaveEditTopLevel | app/app/page.tsx:157-179 | with a falsy parent id, every task with the id gets `editText`, possibly ""; nothing else changes |
| TaskTree.SaveEditSubtask | app/app/page.tsx:157-179 | with a parent id, only the matching subtasks under that parent get `editText`; the parent's own text and every other task are unchanged |
| TaskTree.SaveLoadedTextIsNoOp | app/app/page.tsx:147-179 | when ids are unique, saving the text that startEditing loaded changes nothing: load and save are inverse |
| TaskTree.ToggleCollapseSpec | app/app/page.tsx:186-192 | a matching task flips `collapsed` only; other tasks are unchanged |
| TaskTree.ToggleCollapseInvolution | app/app/page.tsx:186-192 | collapsing twice restores the tree, and an unknown id changes nothing |
| TaskTree.AddTaskPreservesShape | app/app/page.tsx:50-62 | adding keeps every task at five subtasks or fewer, with subtasks as leaves |
| TaskTree.ToggleTaskPreservesShape | app/app/page.tsx:64-83 | toggling keeps the tree well shaped |
| TaskTree.RemoveTaskPreservesShape | app/app/page.tsx:85-104 | removing keeps the tree well shaped |
| TaskTree.AddGeneratedPreservesShape | app/app/page.tsx:132 | with leaf subtasks in the batch, no task ever has more than five subtasks, for any batch size |
| TaskTree.SaveEditPreservesShape | app/app/page.tsx:157-179 | saving an edit keeps the tree well shaped |
| TaskTree.ToggleCollapsePreservesShape | app/app/page.tsx:186-192 | collapsing keeps the tree well shaped |
| TaskPage.TaskManager.constructor | app/app/page.tsx:15-48 | the page starts with the three sample tasks, an empty input, no edit session, no breakdown and a count of 3 |
| TaskPage.TaskManager.SetNewTask | app/app/page.tsx:222 | the input box sets `newTask` and nothing else |
| TaskPage.TaskManager.AddTask | app/app/page.tsx:50-62 | blank input changes neither `tasks` nor `newTask`; otherwise the untrimmed text is appended as a fresh task and `newTask` becomes "" |
| TaskPage.TaskManager.ToggleTask | app/app/page.tsx:64-83 | `tasks` becomes the toggled tree; nothing else changes |
| TaskPage.TaskManager.RemoveTask | app/app/page.tsx:85-104 | `tasks` becomes the tree with the task or subtask removed |
| TaskPage.TaskManager.OpenBreakdownModal | app/app/page.tsx:106-109 | remembers the task and sets `subtaskCount` to `min(5 - subtasks.length, 3)` |
| TaskPage.TaskManager.SetSubtaskCount | app/app/page.tsx:247 | the dialog sets `subtaskCount` |
| TaskPage.TaskManager.CloseBreakdown | app/app/page.tsx:244 | the dialog's close clears `breakdownTask` |
| TaskPage.TaskManager.AddGeneratedSubtasks | app/app/page.tsx:111-145 | with a remembered task, its subtasks get the formatted batch appended and cut to five, and the dialog closes; with none, nothing changes |
| TaskPage.TaskManager.StartEditing | app/app/page.tsx:147-155 | opens the session on the target and loads its text, or "" |
| TaskPage.TaskManager.SetEditText | app/app/page.tsx:234 | the edit box sets `editText` |
| TaskPage.TaskManager.SaveEdit | app/app/page.tsx:157-179 | commits `editText` to the session's target and closes the session; with no session nothing changes |
| TaskPage.TaskManager.CancelEdit | app/app/page.tsx:181-184 | closes the session and clears `editText`, leaving `tasks` alone |
| TaskPage.TaskManager.ToggleCollapse | app/app/page.tsx:186-192 | `tasks` becomes the tree with the task's `collapsed` flipped |
| TaskPage.ClearTextThenCancelThenSave | app/app/page.tsx:147-184 | clearing a task's text and cancelling keeps the original text; doing it again and saving commits "" to that task only |
| GenerateSubtasks.StripOpeningIsSuffix | app/app/api/generate-subtasks/route.ts:79 | removing the opening fence keeps a suffix of the text |
| GenerateSubtasks.StripClosingIsPrefix | app/app/api/generate-subtasks/route.ts:80 | removing the closing fence keeps a prefix of the text |
| GenerateSubtasks.CleanIsSliceOfTrimmed | app/app/api/generate-subtasks/route.ts:77-80 | the cleaned text is a contiguous slice of the trimmed reply and never longer than it |
| GenerateSubtasks.CleanWithoutFences | app/app/api/generate-subtasks/route.ts:77-80 | a reply with neither fence comes through trimmed and otherwise unchanged |
| GenerateSubtasks.OpeningFenceOnlyAtStart | app/app/api/generate-subtasks/route.ts:79 | when the trimmed reply does not start with the fence, nothing is removed from its front |
| GenerateSubtasks.ClosingFenceOnlyAtEnd | app/app/api/generate-subtasks/route.ts:80 | the closing fence is removed exactly when it is at the very end, and then only those three characters go |
| GenerateSubtasks.StripClosingExactlyAtEnd | app/app/api/generate-subtasks/route.ts:80 | the closing step removes the three characters of a final fence, and nothing when the text does not end with one |
| GenerateSubtasks.CleanFencedPayload | app/app/api/generate-subtasks/route.ts:77-80 | a payload wrapped in a ```json fence (any case, any white space around it) is recovered exactly |
| GenerateSubtasks.TrimPadded | app/app/api/generate-subtasks/route.ts:78 | trimming removes exactly the white-space padding around a text without white-space ends |
| GenerateSubtasks.StripOpeningOfFenced | app/app/api/generate-subtasks/route.ts:79 | the opening step removes the fence, the tag and the white space after them |
| GenerateSubtasks.TrimStartSkipsWhitespace | app/app/api/generate-subtasks/route.ts:79 | `\s*` consumes exactly a white-space prefix |
| GenerateSubtasks.TrimEndSkipsWhitespace | app/app/api/generate-subtasks/route.ts:78 | `trimEnd` removes exactly a white-space suffix |
| GenerateSubtasks.InvalidRequestIs400 | app/app/api/generate-subtasks/route.ts:8-12 | the reply is 400 "invalid" exactly when a non-null body has a non-string `task` or a non-number `count`, whatever the key and the model would do |
| GenerateSubtasks.MissingKeyAfterValidation | app/app/api/generate-subtasks/route.ts:13-17 | "API key missing" (500) comes exactly when the request is valid and the key is falsy |
| GenerateSubtasks.FailuresAreFixedMessages | app/app/api/generate-subtasks/route.ts:89-94 | every failure carries one of three fixed messages, never the raw reply; 400 goes with "invalid" and 500 with the others |
| GenerateSubtasks.SuccessIsParsedReply | app/app/api/generate-subtasks/route.ts:82-87 | success comes exactly when every check passes and the cleaned reply parses, and the parsed value is returned as it is |
| GenerateSubtasks.ParseFailureIsGeneric500 | app/app/api/generate-subtasks/route.ts:83-94 | a cleaned reply that does not parse gives the generic 500 |
| GenerateSubtasks.CountDoesNotTruncate | app/app/api/generate-subtasks/route.ts:82-87 | the value of `count` does not affect the reply |
| GenerateSubtasks.FencedArrayIsReturned | app/app/api/generate-subtasks/route.ts:77-87 | a fenced JSON array reply is answered with the array its payload parses to |
| UserModel.UserStore.constructor | app/app/models/User.ts:11-27 | the store starts empty |
| UserModel.UserStore.FindOne | app/app/models/User.ts:13-17 | a lookup finds a record exactly when the key is stored, and returns its tasks |
| UserModel.UserStore.Create | app/app/models/User.ts:13-22 | a non-empty unique key is inserted with the given tasks or the default "[]"; an empty key (refused by `required`) or a duplicate key changes nothing |
| UserModel.UserStore.FindOneAndDelete | app/app/api/webhooks/route.ts:177 | removes the key if present and returns what it held; no other record changes |
| UserModel.UserStore.SaveTasks | app/app/api/tasks/route.ts:101-103 | replaces the stored tasks of one existing user |
| TasksRoute.HandleGet | app/app/api/tasks/route.ts:15-66 | the GET handler answers as `Get` over the store's records and does not modify the store |
| TasksRoute.HandlePost | app/app/api/tasks/route.ts:68-116 | the POST handler's reply and the store afterwards are those of `Post` |
| TasksRoute.GetWithoutAuthorIdIs400 | app/app/api/tasks/route.ts:23-31 | once connected, a missing or empty `authorId` is a 400, whatever is stored |
| TasksRoute.GetUnknownUserIsNotEmptyList | app/app/api/tasks/route.ts:34-58 | an unknown user is a 404, distinct from a user whose stored tasks are "[]", which loads as the empty array |
| TasksRoute.GetUndecodableIs500 | app/app/api/tasks/route.ts:44-53 | a stored string that does not decode is a 500 |
| TasksRoute.GetOutcomes | app/app/api/tasks/route.ts:15-66 | statuses are 200/400/404/500; success exactly when connected, named, found and decodable; the decoded tasks are returned |
| TasksRoute.PostOutcomes | app/app/api/tasks/route.ts:68-116 | records change only on success, and then only at the user's key, which becomes the encoding of `tasks`; every other user is unchanged |
| TasksRoute.PostMissingFieldsIs400 | app/app/api/tasks/route.ts:77-82 | a falsy `authorId` or `tasks` is a 400 and changes nothing |
| TasksRoute.PostNonArrayIs400 | app/app/api/tasks/route.ts:84-89 | a truthy non-array `tasks` is a 400 and changes nothing |
| TasksRoute.PostUnknownUserIs404 | app/app/api/tasks/route.ts:92-99 | an unknown user is a 404 and no record is created for it |
| TasksRoute.PostEmptyArraySucceeds | app/app/api/tasks/route.ts:77-107 | an empty array is truthy: saving `[]` for a known user succeeds |
| TasksRoute.PostIdempotent | app/app/api/tasks/route.ts:101-107 | repeating the same POST gives the same reply and the same records |
| TasksRoute.PostThenGet | app/app/api/tasks/route.ts:55-58 | when decode inverts encode, a GET after a successful POST returns exactly the posted tasks |
| WebhooksRoute.HandleUserCreated | app/app/api/webhooks/route.ts:116-142 | handleUserCreated changes the store exactly as `Created` says (a new record only for an id that is present, not null and not ""), and leaves it alone when it throws |
| WebhooksRoute.HandleUserDeleted | app/app/api/webhooks/route.ts:171-188 | handleUserDeleted changes the store exactly as `Deleted` says, and leaves it alone when it throws |
| WebhooksRoute.HandlePost | app/app/api/webhooks/route.ts:14-108 | the webhook's reply and the store afterwards are those of `Post` |
| WebhooksRoute.MissingSecretIs500 | app/app/api/webhooks/route.ts:18-26 | a missing secret is a 500, before the headers are looked at, and the store is unchanged |
| WebhooksRoute.MissingHeaderIs400 | app/app/api/webhooks/route.ts:29-39 | with a secret, any missing `svix-*` header is a 400 and the store is unchanged |
| WebhooksRoute.PostOutcomes | app/app/api/webhooks/route.ts:14-108 | statuses are 200/400/500; every failure leaves the store unchanged; 400 comes exactly from a missing header or a failed verification (a throwing `Webhook` constructor is not modelled) |
| WebhooksRoute.VerificationFailureIs400 | app/app/api/webhooks/route.ts:52-65 | with a secret and all headers, a signature that fails to verify is a 400 and the store is unchanged |
| WebhooksRoute.ConnectionFailureIs500 | app/app/api/webhooks/route.ts:68-81 | a verified event with no database connection is a 500 and the store is unchanged |
| WebhooksRoute.UserCreatedSpec | app/app/api/webhooks/route.ts:116-142 | user.created for a stored user changes nothing; for a new non-empty id it inserts exactly one record, holding "[]" |
| WebhooksRoute.UnstorableCreateIs500 | app/app/api/webhooks/route.ts:130-140 | user.created with a null or empty id for an unknown user fails validation: the reply is 500 and the store is unchanged |
| WebhooksRoute.UserCreatedTwice | app/app/api/webhooks/route.ts:123-127 | a second user.created for the same non-empty id changes nothing |
| WebhooksRoute.UserDeletedSpec | app/app/api/webhooks/route.ts:171-188 | user.deleted removes the record if it is present and otherwise changes nothing; no other record is touched |
| WebhooksRoute.CreateThenDeleteRestores | app/app/api/webhooks/route.ts:116-188 | creating a new user with a non-empty id and then deleting it restores the store |
| WebhooksRoute.OtherEventsChangeNothing | app/app/api/webhooks/route.ts:88-100 | user.updated (with data) and every unhandled event type leave the store as it was |
| WebhooksRoute.UnhandledEventIs200 | app/app/api/webhooks/route.ts:84-107 | a verified event of a type no handler takes is answered 200 and leaves the store unchanged |
| WebhooksRoute.DeletedEventIs200 | app/app/api/webhooks/route.ts:92-100 | a verified user.deleted is answered 200 whether or not the user was stored, and exactly that record is gone afterwards |
| WebhooksRoute.UpdatedEventIs200 | app/app/api/webhooks/route.ts:150-163 | a verified user.updated is answered 200 and leaves the store unchanged |
| WebhooksRoute.DispatchTouchesOneRecord | app/app/api/webhooks/route.ts:87-100 | a processed event does one of three things: leaves the store alone, adds one new "[]" record, or removes one existing record |
| WebhooksRoute.CreatedUserLoadsEmpty | app/app/api/webhooks/route.ts:130-136 | a user the webhook created loads from the tasks endpoint as the empty list, not as "not found" |

## Left out

- The rendering, the animations, the JSON viewer, the clipboard and its timer
  are not modelled. They are UI with no effect on the task tree.
- Ids from `Date.now()` and `Math.random()` are parameters (`AddTask`'s `id`,
  `AddGeneratedSubtasks`' `ids`). Their uniqueness is assumed where a lemma
  needs it (`UniqueIds`, `WellKeyed`).
- The `generateSubtasks` fetch wrapper and its call from `addGeneratedSubtasks`
  are not modelled. The generated texts are an input. The model therefore
  does not capture the wrapper's argument order, its fallback to `[]`, or a
  reply that is not an array.
- TaskPage.TaskManager.AddGeneratedSubtasks: React state updates are
  asynchronous and the handler reads the `tasks` captured when the call
  started. The model applies the update to the current `tasks`, with no
  interleaving.
- The language-model call is not modelled. Its reply, or its failure, is an
  input. So are `JSON.parse` and `JSON.stringify` (`parse`, `decode`,
  `encode`).
- The Svix signature check is the `verify` parameter. The database
  connection is the `connected` parameter. The connection cache in
  `app/app/lib/mongoose.ts` is not modelled.
- Mongoose's casting of a filter value to a key is the `cast` parameter. For a
  webhook event whose `data.id` is absent, Mongoose drops the condition and
  matches any record. `cast` stands for that by naming the matched record; the
  model does not capture which record the database would return first.
- Js.Property: only the keys the handlers read (`task`, `count`, `authorId`,
  `tasks`, `type`, `data`, `id`) are modelled. No JSON value inherits any of
  them; inherited properties in general (a string's `length`, `toString`) are
  not modelled.
- The `required` validator on `authorId` is modelled as refusing an absent
  id, `null` and the empty key. For other non-string ids, Mongoose's cast to
  `String` is left to the `cast` parameter.
- WebhooksRoute.Post: `new Webhook(secret)` (app/app/api/webhooks/route.ts:49)
  runs outside the `try` that guards verification. If the signature library's
  constructor throws, for example on a secret it cannot decode, the framework
  answers 500 before verification. The model sends every failure of lines
  49-65 through `verify` returning None, which gives 400. So `PostOutcomes`'s
  "400 exactly from a missing header or a failed verification" does not cover
  a constructor throw.
- A database query that fails after the connection succeeded is not modelled
  as a separate outcome.
- The `createdAt` and `updatedAt` timestamps of user records are not modelled.
- Log output (`console.*`) is not modelled.
