# TODO_pair core in Dafny

TODO_pair is a shared to-do list for a couple. Two users belong to one couple and share its tasks. A task may have subtasks and comments, a category and a priority, a due date and an assignee. A user signs up and gets a fresh one-person couple with an invite code. A second user joins that couple by entering the code.

This project models two parts of the system:

- The Rails backend: its models, its controllers and the database schema. They are written as a single in-memory store, the class `Backend.Store`, with one method per API action.
- The in-memory logic of the alternative client data layer, `frontend/src/services/api.js`. It is its own module, `ClientApi`, because it works on a different data shape: text ids and a boolean `completed` column.

Layout, one module per source file:

| module | file | models |
|---|---|---|
| `Common` | common.dfy | ids, `Option`, request parameters that may be absent, Rails `blank?`, ASCII `upcase`, walking a table in id order |
| `Schema` | schema.dfy | the four tables of `db/schema.rb` as records, foreign keys and unique indexes as predicates |
| `UserModel` | user_model.dfy | the validations of `user.rb` and `has_secure_password`, and destroying a user |
| `TaskModel` | task_model.dfy | the validations, scopes and completion of `task.rb`, and the recursive `dependent: :destroy` |
| `CoupleModel` | couple_model.dfy | invite-code generation, the members of a couple, destroying a couple |
| `CommentModel` | comment_model.dfy | the comment validations and the ascending default order |
| `Integrity` | integrity.dfy | the store invariant, with one preservation lemma per kind of write |
| `AppController` | app_controller.dfy | error kinds, `current_user`, `current_couple` |
| `AuthApi`, `CouplesApi`, `TasksApi`, `CommentsApi` | *_api.dfy | the pure parts of each controller: lookups, decisions, rendered responses |
| `Backend` | backend.dfy | class `Store`: tables, session, clock and id counter, with each action as a method |
| `ClientApi` | client_api.dfy | `api.js` list post-processing, invite codes, create/update payloads, `join` |

Modelling decisions:

- **Time and ids.** Time is a clock passed into each write, and it must be later than every stored timestamp. Ids come from one counter shared by all tables. The invariant `ChronologicalTasks`/`ChronologicalComments` says that a smaller id means an earlier `created_at`. So every `created_at` ordering is computed by walking ids in order (`Common.Where`), reversed where the order is newest first.
- **Store invariant.** `Integrity.Consistent` holds after every action. It includes:
  - every foreign key of the schema;
  - both unique indexes;
  - the validations as invariants of the stored rows;
  - at most two members per couple;
  - ids below the counter;
  - timestamps no later than the clock.
- **Error kinds.** Every action returns `Ok(value)` or `Fail(error)`. An error is one of:
  - `Unauthorized`: the authentication gate;
  - `NotFound`: lookups and couple scoping;
  - `Invalid(messages)`: a 422 answer with its messages;
  - `ServerError`: an exception the controller does not rescue.
- **Exceptions the controllers do not rescue.** Each becomes `ServerError` with nothing written:
  - a nil `current_couple` in the task and comment controllers;
  - a row whose `assignee_id` or `parent_id` names no row (the foreign key raises);
  - a destroy whose subtask walk never ends, after an update made a task its own ancestor.
- **Signup.** `Couple.create!` runs before the user is validated. A couple is therefore created even when signup is refused, and it stays with no members. Its invite code is the upper-cased form of an 8-character random alphanumeric string, which is a parameter. `Couple.create!` validates before `before_create` assigns the code. A code that some couple already holds therefore passes validation and is refused by the unique index. The model answers that case with `ServerError` and writes nothing.
- **Partner.** The partner is `first` of an unordered relation, which Rails orders by primary key. So the partner is the member with the smallest id other than the caller.
- **Join rejections.** The controller answers the two join rejections (couple full, already a member) with 422 (unprocessable entity). The model returns `Invalid([message])`.
- **Collation.** Every table uses the `utf8mb4_0900_ai_ci` collation, so the database compares text without regard to case. Every comparison the database makes goes through `Common.SameText`, which folds ASCII letters (`Common.Fold`): the email and invite-code unique indexes, the email uniqueness validation, `find_by` on email and invite code, and the category filter of the task listing.

## Model

| member | source | states |
|---|---|---|
| Common.Upcase | backend/app/controllers/api/couples_controller.rb:5 | upper-casing keeps the length, maps each ASCII lower-case letter to its capital and leaves every other character alone |
| Common.UpcaseIsSameText | backend/db/schema.rb:24 | under the tables' collation a text equals its upper-cased form, and folding is idempotent |
| Common.Where | backend/app/models/comment.rb:7 | the ids of the rows that satisfy a condition, each row once, in ascending id order |
| Common.WhereCount | backend/app/controllers/api/tasks_controller.rb:91-92 | a listing has exactly as many entries as there are matching rows (the `count` of a relation) |
| Common.WhereAgrees | backend/app/controllers/api/tasks_controller.rb:13-14 | two conditions that agree on every row give the same listing |
| Common.DecimalText | backend/app/controllers/api/tasks_controller.rb:14 | the text an id parameter carries: at least one character, all decimal digits |
| Common.DecimalTextRoundTrip | backend/app/controllers/api/tasks_controller.rb:14 | reading an id's decimal text back gives the id |
| Common.DecimalTextInjective | backend/app/controllers/api/tasks_controller.rb:14 | two ids with the same decimal text are the same id |
| TaskModel.TaskErrors | backend/app/models/task.rb:2-14 | no error exactly when the couple exists, the title is not blank, the category is nil or one of the five, and the priority is nil or 1, 2 or 3; a blank title is reported |
| TaskModel.ValidTaskHasNoErrors | backend/app/models/task.rb:8-14 | a stored (valid) task passes validation again |
| TaskModel.ScopesPartition | backend/app/models/task.rb:16-31 | each task is in exactly one of `completed` and `incomplete`, and `completed?` agrees with `completed` |
| TaskModel.Saved | backend/app/models/task.rb:21-27 | saving with no changed attribute writes nothing; otherwise `updated_at` becomes now |
| TaskModel.MarkComplete | backend/app/models/task.rb:21-23 | afterwards the task is completed at now and all other columns are unchanged except `updated_at` |
| TaskModel.MarkIncomplete | backend/app/models/task.rb:25-27 | afterwards the task is not completed; on an incomplete task nothing changes |
| TaskModel.IncompleteIsIdempotent | backend/app/models/task.rb:25-27 | `incomplete!` twice is `incomplete!` once |
| TaskModel.Subtree | backend/app/models/task.rb:6 | the tasks a recursive destroy reaches hold the roots and every subtask of a task they hold |
| TaskModel.SubtreeIsLeast | backend/app/models/task.rb:6 | the reached tasks are the least such set, so nothing unrelated is destroyed |
| TaskModel.SubtreeHoldsSubtasks | backend/app/models/task.rb:6 | a subtask of a destroyed task is destroyed |
| TaskModel.SelfParentDiverges | backend/app/models/task.rb:4-6 | a task that is its own parent makes the recursive destroy endless |
| TaskModel.DestroyTasks | backend/app/models/task.rb:5-6 | destroy removes exactly the subtree and every comment on it; the other rows are unchanged and none of them references a removed task |
| CoupleModel.GenerateInviteCode | backend/app/models/couple.rb:5-13 | the code has 8 characters, each from A-Z or 0-9, and only lower-case letters are changed |
| CoupleModel.DestroyCouple | backend/app/models/couple.rb:2-3 | the couple row goes; its members stay with a nil couple; its tasks go with their subtrees and comments; every other row is unchanged |
| CoupleModel.DestroyedCoupleHasNoMembers | backend/app/models/couple.rb:2 | no user references the destroyed couple |
| UserModel.SignupErrors | backend/app/models/user.rb:2-10 | no error exactly when the password is present, at most 72 bytes and confirmed whenever a digest was assigned (Rails 7.1 checks the confirmation of a password made only of white space too), the email is present and not taken up to case (the uniqueness check follows the column's collation), and the name is present; a taken email is reported |
| UserModel.NewUser | backend/app/controllers/api/auth_controller.rb:7-11 | the new user is in the given couple, blue, with the given email |
| UserModel.BlankPasswordIsConfirmed | backend/app/models/user.rb:2 | a password of spaces gets a digest, so a mismatching confirmation is reported and is the only error |
| UserModel.SavedUserIsValid | backend/app/models/user.rb:8-10 | a user that passed validation satisfies the stored-user invariant and has a fresh email |
| UserModel.DestroyUser | backend/app/models/user.rb:5-6 | destroying a user removes exactly their comments; it fails while a task is assigned to them, because that foreign key has no cascade |
| CommentModel.CommentErrors | backend/app/models/comment.rb:2-5 | no error exactly when the task and the user exist and the content is not blank |
| CommentModel.CommentsOf | backend/app/models/comment.rb:7 | exactly the task's comments, in ascending creation time |
| Integrity.EmptyIsConsistent | backend/db/schema.rb:14-68 | the empty database satisfies the invariant |
| Integrity.InsertCoupleKeeps | backend/app/models/couple.rb:5-13 | a new couple with a fresh well-formed code keeps the invariant and has no members |
| Integrity.InsertUserKeepsMembers | backend/app/controllers/api/auth_controller.rb:10-13 | a user added to an empty couple keeps every couple at two members or fewer and is that couple's only member |
| Integrity.InsertUserKeeps | backend/app/controllers/api/auth_controller.rb:10-13 | inserting a valid user with a fresh email into an empty existing couple keeps the invariant |
| Integrity.MoveUserKeepsMembers | backend/app/controllers/api/couples_controller.rb:11-22 | moving a user into a couple with fewer than two members leaves every couple with at most two |
| Integrity.MoveUserKeeps | backend/app/controllers/api/couples_controller.rb:22 | the join move keeps the invariant |
| Integrity.DestroyTasksKeeps | backend/app/models/task.rb:5-6 | the task cascade keeps the invariant: no comment or subtask is left dangling |
| Integrity.RemoveUserKeepsMembers | backend/app/models/user.rb:4 | removing a user cannot push a couple over two members |
| Integrity.CommentSubsetKeeps | backend/db/schema.rb:14-21 | keeping only some comments, unchanged, keeps what the invariant asks of comments |
| Integrity.RemoveUserKeepsReferences | backend/db/schema.rb:63-68 | once no task is assigned to the user and no kept comment is theirs, removing the user leaves no dangling reference |
| Integrity.DestroyUserKeeps | backend/app/models/user.rb:6 | a user destroy that succeeds keeps the invariant |
| Integrity.DestroyCoupleKeepsUsers | backend/app/models/couple.rb:2 | destroying a couple without members changes no user |
| Integrity.DestroyCoupleKeeps | backend/app/models/couple.rb:2-3 | destroying a couple without members keeps the invariant |
| Integrity.InsertTaskKeepsOrder | backend/app/controllers/api/tasks_controller.rb:32-34 | a new task stamped now keeps newer ids newer |
| Integrity.InsertTaskKeeps | backend/app/controllers/api/tasks_controller.rb:32-34 | inserting a valid task whose references exist keeps the invariant |
| Integrity.UpdateTaskKeepsOrder | backend/app/controllers/api/tasks_controller.rb:43 | rewriting a task without touching `created_at` keeps the id order and the clock bound |
| Integrity.UpdateTaskKeepsReferences | backend/db/schema.rb:63-67 | rewriting a task with existing references leaves no dangling reference |
| Integrity.UpdateTaskKeeps | backend/app/controllers/api/tasks_controller.rb:43 | updating a task with a valid row whose references exist keeps the invariant |
| Integrity.InsertCommentKeepsOrder | backend/app/controllers/api/comments_controller.rb:15-18 | a new comment stamped now keeps newer ids newer |
| Integrity.InsertCommentKeepsReferences | backend/db/schema.rb:63-64 | a comment on an existing task by an existing user adds no dangling reference |
| Integrity.InsertCommentKeeps | backend/app/controllers/api/comments_controller.rb:15-18 | inserting a comment that passes validation keeps the invariant |
| Integrity.DestroyCommentKeeps | backend/app/controllers/api/comments_controller.rb:27 | removing a comment keeps the invariant |
| AppController.CurrentUser | backend/app/controllers/application_controller.rb:8-10 | the session's user exactly when the session holds the id of an existing user, else nil |
| AppController.CurrentCouple | backend/app/controllers/application_controller.rb:18-20 | the current user's couple; nil without a current user or without an existing couple |
| AppController.Member | backend/app/controllers/api/couples_controller.rb:44 | the member view shows that user's id, name and colour |
| AuthApi.FindByEmail | backend/app/controllers/api/auth_controller.rb:23 | a user whose email equals the given one up to case, nil exactly when the email is missing or no user has it |
| AuthApi.PartnerOf | backend/app/controllers/api/auth_controller.rb:62-67 | another member of the user's couple, the one with the smallest id; nil exactly when there is no couple or no other member |
| AuthApi.PartnersAreMutual | backend/app/controllers/api/auth_controller.rb:62-67 | in a couple of two, each member is the other's partner |
| AuthApi.UserResponse | backend/app/controllers/api/auth_controller.rb:50-60 | the invite code is that of the user's couple, nil without one; the partner is present exactly when `PartnerOf` finds one |
| CouplesApi.FindByCode | backend/app/controllers/api/couples_controller.rb:5 | a couple whose code equals the upper-cased code up to case; nil exactly when the code is missing or no couple holds it |
| CouplesApi.JoinCheck | backend/app/controllers/api/couples_controller.rb:5-17 | NotFound, couple full, already a member, or the target, each exactly under its condition, with the full check first |
| CouplesApi.MoveUser | backend/app/controllers/api/couples_controller.rb:22 | only the caller's row changes: it gets the target couple and green |
| CouplesApi.JoinReply | backend/app/controllers/api/couples_controller.rb:27-55 | the reply names the target couple and has a partner exactly when the caller has one, and then it is the member view of `PartnerOf` |
| CouplesApi.JoinOutcome | backend/app/controllers/api/couples_controller.rb:4-32 | a refusal writes nothing; otherwise the answer is the target couple, or a server error when the old couple's destroy cannot finish |
| CouplesApi.JoinMovesOnlyCaller | backend/app/controllers/api/couples_controller.rb:22-25 | after a passed check the caller is in the target couple and green, and every other user is unchanged |
| CouplesApi.JoinBoundsTarget | backend/app/controllers/api/couples_controller.rb:11-22 | after a passed check the target couple contains the caller and has at most two members |
| CouplesApi.JoinDestroysPreviousIffEmpty | backend/app/controllers/api/couples_controller.rb:20-25 | on success the previous couple is gone exactly when the caller was its only member |
| CouplesApi.JoinKeepsInviteCodes | backend/app/models/couple.rb:5 | `join` creates no couple and changes no invite code |
| CouplesApi.JoinKeeps | backend/app/controllers/api/couples_controller.rb:4-32 | every outcome of `join` keeps the invariant |
| CouplesApi.CoupleResponse | backend/app/controllers/api/couples_controller.rb:40-45 | the couple's id, name and invite code, and each of its members exactly once |
| CommentsApi.ScopedTask | backend/app/controllers/api/tasks_controller.rb:69-73 | found exactly when the task exists and belongs to the caller's couple |
| CommentsApi.ScopedComment | backend/app/controllers/api/comments_controller.rb:39-45 | found exactly when the comment exists and its task belongs to the caller's couple |
| CommentsApi.CommentResponse | backend/app/controllers/api/comments_controller.rb:51-62 | the comment's id, content and time, and its author's id, name and colour |
| CommentsApi.CommentList | backend/app/controllers/api/comments_controller.rb:7-11 | one view per comment of the task, in the default order |
| CommentsApi.CommentListIsTheTasksComments | backend/app/controllers/api/comments_controller.rb:8 | the listing holds exactly the task's comments, oldest first |
| TasksApi.ReversedIsNewestFirst | backend/app/controllers/api/tasks_controller.rb:10 | ids walked upward and then reversed are in descending `created_at` order |
| TasksApi.IndexIds | backend/app/controllers/api/tasks_controller.rb:7-20 | exactly the couple's top-level tasks that pass the present filters (the category compared up to case), newest first; status `completed` gives only completed ones and `incomplete` only incomplete ones |
| TasksApi.AssigneeFilterSelectsId | backend/app/controllers/api/tasks_controller.rb:14 | `assignee_id=` with an id's text selects exactly the tasks assigned to that id |
| TasksApi.BlankFiltersIgnored | backend/app/controllers/api/tasks_controller.rb:13-14 | a blank category or assignee filters nothing |
| TasksApi.OtherStatusIgnored | backend/app/controllers/api/tasks_controller.rb:16-20 | any other status value filters nothing |
| TasksApi.StatusesSplitListing | backend/app/controllers/api/tasks_controller.rb:16-20 | every unfiltered task is in exactly one of the completed and incomplete listings |
| TasksApi.AssignTask | backend/app/controllers/api/tasks_controller.rb:75-77 | only permitted parameters that were sent change; couple, completion and timestamps never do |
| TasksApi.BuildTask | backend/app/controllers/api/tasks_controller.rb:32 | the new task belongs to the caller's couple, is incomplete, is stamped now and takes the permitted parameters |
| TasksApi.EmptyUpdateChangesNothing | backend/app/controllers/api/tasks_controller.rb:43 | an update with no parameters writes nothing |
| TasksApi.ApplyCompleted | backend/app/controllers/api/tasks_controller.rb:58-62 | the task ends completed exactly when `completed` is neither `false` nor `"false"`, and then at now; no other column changes except `updated_at` |
| TasksApi.SubtaskIds | backend/app/controllers/api/tasks_controller.rb:107 | exactly the task's subtasks, in ascending creation time |
| TasksApi.TaskResponse | backend/app/controllers/api/tasks_controller.rb:79-95 | `completed` is `completed_at` being present; the assignee is shown exactly when it exists; the counts are those of the task's comments and subtasks |
| TasksApi.TaskDetailResponse | backend/app/controllers/api/tasks_controller.rb:97-110 | the detail form adds the comment listing and one un-nested response per subtask |
| TasksApi.IndexResponse | backend/app/controllers/api/tasks_controller.rb:22 | one detailed response per listed task, in listing order |
| TasksApi.SubtaskViewsFollowIds | backend/app/controllers/api/tasks_controller.rb:107-109 | the i-th rendered subtask carries the i-th child's id and creation time and names the task as its parent |
| TasksApi.DetailListsSubtasks | backend/app/controllers/api/tasks_controller.rb:107-109 | the subtasks shown are exactly the task's children, oldest first |
| Backend.Store.constructor | backend/db/schema.rb:13-68 | an empty, consistent store without a session |
| Backend.Store.Signup | backend/app/controllers/api/auth_controller.rb:6-19 | a taken code writes nothing; otherwise a new couple stays; refused input leaves it memberless and the session alone; on success the user is its only member, blue, logged in, with no partner |
| Backend.Store.Login | backend/app/controllers/api/auth_controller.rb:22-31 | unknown email and wrong password both give Unauthorized without touching the session; success logs the user in |
| Backend.Store.Logout | backend/app/controllers/api/auth_controller.rb:33-37 | behind the gate: Unauthorized without a user; otherwise the session is cleared |
| Backend.Store.Me | backend/app/controllers/api/auth_controller.rb:40-42 | the caller's user view, or Unauthorized |
| Backend.Store.Join | backend/app/controllers/api/couples_controller.rb:4-32 | the step-by-step action answers and writes exactly what `JoinOutcome` describes, and keeps the invariant |
| Backend.Store.ShowCouple | backend/app/controllers/api/couples_controller.rb:35-46 | NotFound without a couple, otherwise the couple view |
| Backend.Store.ListTasks | backend/app/controllers/api/tasks_controller.rb:6-23 | the listing of `IndexResponse` for the caller's couple; Unauthorized or a server error otherwise |
| Backend.Store.FindCallerTask | backend/app/controllers/api/tasks_controller.rb:69-73 | found exactly when the task belongs to the caller's couple, else NotFound |
| Backend.Store.ShowTask | backend/app/controllers/api/tasks_controller.rb:26-28 | Unauthorized without a session, a server error without a couple, NotFound out of scope; otherwise its detailed response |
| Backend.Store.CreateTask | backend/app/controllers/api/tasks_controller.rb:31-39 | invalid parameters give their messages and store nothing; valid parameters succeed exactly when their references exist, and otherwise give a server error; success adds just the new task of the caller's couple |
| Backend.Store.UpdateTask | backend/app/controllers/api/tasks_controller.rb:42-48 | Unauthorized, server error or NotFound before the task is found; a failed validation gives its messages and writes nothing; a valid change succeeds unless it writes a dangling reference; success rewrites only that task |
| Backend.Store.DestroyTask | backend/app/controllers/api/tasks_controller.rb:51-54 | Unauthorized, server error or NotFound before the task is found; otherwise the task's subtree and comments go, or nothing does when the walk is endless |
| Backend.Store.CompleteTask | backend/app/controllers/api/tasks_controller.rb:57-65 | Unauthorized, server error or NotFound before the task is found, changing nothing; otherwise only that task gets `ApplyCompleted` |
| Backend.Store.ListComments | backend/app/controllers/api/comments_controller.rb:6-11 | Unauthorized, server error, or NotFound exactly when the task is out of scope; otherwise the task's comment listing |
| Backend.Store.CreateComment | backend/app/controllers/api/comments_controller.rb:13-23 | Unauthorized, server error or NotFound before the task is found; blank content is refused and nothing is stored; otherwise exactly one comment by the caller on that task |
| Backend.Store.DestroyComment | backend/app/controllers/api/comments_controller.rb:26-45 | Unauthorized, server error or NotFound before the comment is found; succeeds exactly for a comment on a task of the caller's couple, and removes just that comment |
| ClientApi.Filter | frontend/src/services/api.js:164 | the elements that satisfy the condition, as a sub-multiset of the input |
| ClientApi.FilterCounts | frontend/src/services/api.js:164 | each passing element is kept exactly as often as it occurs, each other one never |
| ClientApi.FilterAppend | frontend/src/services/api.js:164 | filtering a concatenation is the concatenation of the filtered parts, so the order is kept |
| ClientApi.SortIsPermutation | frontend/src/services/api.js:119 | the insertion sort returns a permutation of the rows, newest first |
| ClientApi.InsertKeepsOrder | frontend/src/services/api.js:119 | inserting a row into a newest-first list keeps it newest first |
| ClientApi.InsertAdds | frontend/src/services/api.js:119 | inserting a row adds exactly that row |
| ClientApi.TopLevelQuery | frontend/src/services/api.js:115-125 | exactly the rows with a null parent that pass the status filter (`completed`/`incomplete` only), newest first |
| ClientApi.Dedup | frontend/src/services/api.js:132 | the same values, each once |
| ClientApi.AssigneeIds | frontend/src/services/api.js:132 | every truthy assignee id of the fetched tasks, each once |
| ClientApi.ProfileMap | frontend/src/services/api.js:139 | maps exactly the fetched ids, each to a fetched profile with that id |
| ClientApi.LaterProfileWins | frontend/src/services/api.js:139 | a profile whose id no later profile repeats is the one kept |
| ClientApi.GroupMembers | frontend/src/services/api.js:153-158 | the subtasks filed under a key are exactly those whose `parent_id` gives that key |
| ClientApi.ParentKeysOccur | frontend/src/services/api.js:154-156 | a key gets a list exactly when some fetched subtask's `parent_id` gives it |
| ClientApi.GroupSubtasks | frontend/src/services/api.js:152-158 | the loop files every fetched subtask under its parent's key, and creates exactly the keys that occur |
| ClientApi.GroupKeepsOrder | frontend/src/services/api.js:146-158 | subtasks fetched oldest first stay oldest first in each group |
| ClientApi.GroupedUnderOwnParent | frontend/src/services/api.js:153-158 | each subtask is in the group of its own parent and in no other |
| ClientApi.CountCompleted | frontend/src/services/api.js:164 | the number of completed subtasks, at most the number of subtasks |
| ClientApi.Progress | frontend/src/services/api.js:166 | null exactly without subtasks; otherwise the rounded percentage, between 0 and 100 |
| ClientApi.ProgressBounds | frontend/src/services/api.js:166 | no subtask done is 0, all done is 100 |
| ClientApi.FormatTask | frontend/src/services/api.js:162-177 | the task's group, its count and completed count, progress by the null rule, comments count 0, and the assignee only for a truthy id that was fetched |
| ClientApi.List | frontend/src/services/api.js:127-179 | one formatted entry per fetched task, in order, with its own group, its counts and its progress (null exactly without subtasks) and no comments; an entry has an assignee exactly when a fetched profile holds its truthy assignee id; `total_count` is the number of entries |
| ClientApi.Pick | frontend/src/services/api.js:86 | a random value in [0, 1) picks a character from A-Z or 0-9 |
| ClientApi.GenerateInviteCode | frontend/src/services/api.js:82-89 | the loop builds 8 characters, each from A-Z or 0-9, the i-th picked by the i-th random value |
| ClientApi.OrNull | frontend/src/services/api.js:237-241 | `x \|\| null` keeps a truthy value and turns any other into null |
| ClientApi.CreatePayload | frontend/src/services/api.js:235-242 | the insert has the title as given, and the optional fields with a value only when it is truthy; category and priority are not in it |
| ClientApi.BuildUpdateData | frontend/src/services/api.js:255-260 | the update holds a column exactly when its field was given, with the given value |
| ClientApi.UpdateWritesOnlyGiven | frontend/src/services/api.js:255-264 | after the update the given fields have their new values and every other column is unchanged, category and priority included |
| ClientApi.CodeMatches | frontend/src/services/api.js:370-374 | the profiles holding the upper-cased code |
| ClientApi.JoinDecision | frontend/src/services/api.js:370-405 | code not found exactly when not one profile matches; self-pairing exactly when the one match is the caller; otherwise that profile, with its couple exactly when it has a truthy one |
| ClientApi.DecisionIgnoresCallersCouple | frontend/src/services/api.js:370-390 | the caller's own row, whatever couple it holds, does not change whether a partner is found |
| ClientApi.MatchesAfterSetCouple | frontend/src/services/api.js:370-376 | changing the caller's couple before the lookup changes only the caller's matching rows, in place and in order |
| ClientApi.DecisionIgnoresCallersCoupleId | frontend/src/services/api.js:370-390 | whatever couple the caller's row holds, `join` reaches the same decision with the same partner |
| ClientApi.SetCouple | frontend/src/services/api.js:401-411 | only the rows with that id get the couple; all others are unchanged |
| ClientApi.PairedRowsShareCouple | frontend/src/services/api.js:387-411 | after the updates of a pairing, the caller's and the partner's rows hold the same couple id |
| ClientApi.Tables.constructor | frontend/src/services/api.js:367-416 | the tables as given |
| ClientApi.Tables.Join | frontend/src/services/api.js:368-416 | each branch writes what `join` writes: nothing on refusal or a failed couple insert; otherwise the new couple, the partner's row unless its update failed, and the caller's row unless its update failed, which then gives `PairingFailed` |

## Left out

- Password hashing (`has_secure_password`) is a comparison of the given password with a stored credential, `UserModel.Authenticates`. The 72-byte limit counts characters.
- Session cookies, CORS, routing, HTTP status codes and JSON rendering are left out. An action's answer is its error kind or its value.
- The memoisation of `@current_user` is left out. It caches a value that no action changes before reading it again.
- `SecureRandom.alphanumeric` and `Math.random` are left out: their outputs are parameters constrained to the shape they have.
- `Time.current` is a parameter that must be later than the store's clock.
- Common.SameText ignores the case of ASCII letters only. The `utf8mb4_0900_ai_ci` collation also ignores accents and the case of non-ASCII letters, so the four members below tell apart texts such as "é" and "É", or "À" and "A", that the database treats as equal.
- UserModel.SignupErrors: an email that differs from a stored one only by accents or non-ASCII case is not reported as taken.
- AuthApi.FindByEmail: such an email finds nobody.
- CouplesApi.FindByCode: a code such as "ÀBCD1234" does not find the couple "ABCD1234".
- TasksApi.IndexIds: a category filter that differs from the stored category only by accents or non-ASCII case lists nothing.
- Common.Blank: `blank?` accepts only ASCII white space here. Ruby's `[[:space:]]` also covers Unicode white space such as U+00A0 and U+3000, so a title, name, email or comment made of those is refused by the source and accepted by the model.
- Common.Upcase: upper-casing maps ASCII letters only and keeps the length. Ruby `upcase` and JavaScript `toUpperCase` map every Unicode letter, and can lengthen the text ("ß" becomes "SS").
- TasksApi.TaskParams: the typed request fields (priority, due date, assignee and parent ids) are the values after ActiveRecord's type cast. The cast itself is not modelled: "" becoming nil, "2" becoming 2, a malformed date becoming nil.
- `TasksApi.AssigneeMatches`: the assignee filter compares the decimal text of the id with the parameter. Rails' lenient integer casting of the parameter (`"12abc"`, leading zeros, spaces) is not modelled.
- `UserModel.DestroyUser` models `user.rb:6`, but no action destroys a user, so no `Store` method calls it.
- Rails' `includes` preloading, the `by_due_date` and `by_priority` scopes, and seeds and migrations are left out. They do not change what an action answers.
- In the client, every Supabase call (`.from(...)`, `auth.getUser`, `adminApi`, `authApi`, `get`, `delete`, the comment helpers) is left out. What a query returns is an input, and a write's failure is a boolean input.
- ClientApi.TopLevelQuery states the rows the query asks for. The database evaluates it, so it has no loop in the source.
- ClientApi.Progress: `Math.round` of a floating-point quotient is stated as integer round-half-up of 100 * done / total. Floating-point error is not modelled.
- ClientApi.Row: `undefined` and `null` both become `None` in rows. Only the update's input distinguishes a missing field (`Undefined`) from a given null.
- JavaScript object keys: a `parent_id` key is its text, and a missing parent becomes `"null"` (`ClientApi.Key`). Number-valued ids are not modelled.
- ClientApi.Tables.Join: the error of the partner's profile update is ignored, as the source does. The model shows that the reported success then leaves the partner without the couple. It does not model the two updates as concurrent.
- Concurrency and races are not modelled: two joins at once, or a uniqueness race between validation and insert.
