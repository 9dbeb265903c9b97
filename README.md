# Ownership-scoped tasks and authentication, modelled in Dafny

This project models the two services that hold the logic of a NestJS task-tracking backend.

- **The task service** (`TasksService`) keeps a store of tasks. Each task is owned by one user. The service creates tasks, lists the caller's tasks a page at a time (newest first), and gets, partially updates and deletes a task. Get, update and delete each check two things in a fixed order: first that the task exists (NotFound), then that the caller owns it (Forbidden).
- **The authentication service** (`AuthService`) keeps a store of users. Registration refuses an email that is already taken and stores only the password hash. Login gives the same "Invalid credentials" error for every failure. Resolving a token payload looks up the user whose id is the token's `sub` claim.
- **Supporting definitions**: the task record, its status enumeration with default PENDING, and the validation rules of the create-task request body.

Files:

- `common.dfy`: `Option`, `Result`, `Outcome`, and the `Uuid` id type.
- `task_entity.dfy`: `TaskStatus`, its stored names and the `Task` record.
- `task_dto.dfy`: the create-task body as parsed JSON and its validator.
- `tasks_service.dfy`: listing and pagination functions, and the `TasksService` class over a `map` from id to task.
- `auth_service.dfy`: users, token payloads, responses, and the `AuthService` class over a `map` from id to user.

Modelling choices:

- Both stores are classes. Their state is a `map` from id to record plus the next id the store will generate. `Create`, `Update`, `Remove` and `Register` are methods that change that state. Listing, get, login and token resolution are functions that only read it.
- Ids are natural numbers handed out by a per-store counter. This stands for the database's generated UUID primary key.
- Time is an integer: `Create` takes the current instant as a parameter and stores it as `createdAt`.
- bcrypt and JWT signing are foreign calls. They are the three function fields of a `Crypto` value that `AuthService` is built with: `hash(password, cost)`, `compare(password, hash)` and `sign(payload)`. The only thing assumed about them is `Sound`: a password always matches its own hash. A ghost map keeps the plaintext each stored hash was made from, so the object invariant can say that every stored password is a hash.
- Requests run one at a time.
- Paging defaults apply only when a value is absent (`tasks.service.ts:41`). When given, page and limit are at least 1.
- Title validation happens in the request-body validator (`create-task.dto.ts:5-7`), not in `create`. The model checks it in `TaskDto.ValidateCreateTask`; `Create` takes an already validated input.
- An explicit `null` status passes the validator, because `@IsOptional` skips null. The service then spreads it into the new task, and the `status` column is a non-nullable enum (`task.entity.ts:28-33`), so the insert fails. The model keeps a null status apart from an absent one, and `Create` fails on it with a not-null violation.

## Model

| member | source | states |
|---|---|---|
| `TaskEntity.ParseStatus` | src/tasks/entities/task.entity.ts:11-15 | exactly three strings name a status, PENDING, IN_PROGRESS and COMPLETED, and each names the status it stands for |
| `TaskEntity.StatusNameRoundTrip` | src/tasks/entities/task.entity.ts:11-15 | each of the three statuses is recovered from its stored string |
| `TaskDto.ValidateCreateTask` | src/tasks/dto/create-task.dto.ts:4-16 | a body is accepted iff the title is a non-empty string, the description (when neither absent nor null) is a string, and the status (when neither absent nor null) names one of the three statuses; on acceptance the title and description are copied as given, and the status is kept as absent, null or the status it names; on rejection each message ("Title is required", "title must be a string", and the description and status messages) is present exactly when its constraint fails |
| `TaskDto.TitleOnlyIsAccepted` | src/tasks/dto/create-task.dto.ts:9-15 | description and status may be omitted: a body with only a non-empty title is accepted with both left empty |
| `Tasks.PageCount` | src/tasks/tasks.service.ts:57 | totalPages is the ceiling of total / limit: totalPages * limit covers total, and one page fewer does not (so 0 tasks give 0 pages) |
| `Tasks.Window` | src/tasks/tasks.service.ts:44-49 | the page holds the items from offset skip on, at most take of them, and is empty past the end |
| `Tasks.OwnedTasks` | src/tasks/tasks.service.ts:44-45 | the enumeration holds exactly the stored tasks whose userId is the caller's, each once, in increasing id order |
| `Tasks.OwnedTasksCount` | src/tasks/tasks.service.ts:44-54 | the enumeration has one entry per id the caller owns |
| `Tasks.InsertNewestFirst` | src/tasks/tasks.service.ts:46 | inserting into a newest-first sequence keeps it newest first and adds exactly that task |
| `Tasks.SortNewestFirst` | src/tasks/tasks.service.ts:46 | the result is ordered by createdAt descending and is a permutation of the input |
| `Tasks.PagesUpToArePrefix` | src/tasks/tasks.service.ts:41-49 | pages 1 to k, one after the other, are the first k * limit items of the listing |
| `Tasks.PagesCoverAll` | src/tasks/tasks.service.ts:42-57 | pages 1 to ceil(total / limit) hold every item exactly once, in order |
| `Tasks.PageBeyondEnd` | src/tasks/tasks.service.ts:42-57 | a page number past ceil(total / limit) selects no items |
| `Tasks.TwentyFiveByTen` | src/tasks/tasks.service.spec.ts:106-117 | with 25 tasks and limit 10 there are 3 pages, page 2 skips 10, page 1 holds 10 tasks, page 3 holds 5 and page 4 none |
| `Tasks.TasksService.constructor` | src/tasks/tasks.service.ts:26-29 | a new service starts over an empty, consistent store |
| `Tasks.TasksService.Create` | src/tasks/tasks.service.ts:31-38 | a null status fails with a not-null violation on the status column and leaves the store unchanged; otherwise the new task gets a fresh id, the caller's userId, the current instant, the input's title and description, and the input's status or PENDING; it is added to the store and nothing else changes; getting it back as its owner returns it unchanged |
| `Tasks.TasksService.Listing` | src/tasks/tasks.service.ts:44-46 | the caller's listing is newest first and holds exactly the stored tasks the caller owns, one per owned id |
| `Tasks.TasksService.FindAll` | src/tasks/tasks.service.ts:40-60 | page 1 and limit 10 apply only when absent; meta echoes page and limit, counts all of the caller's tasks and gives ceil(total / limit) pages; data holds only the caller's stored tasks, newest first, min(limit, total - skip) of them from offset (page - 1) * limit; a page past the last returns empty data, not an error |
| `Tasks.TasksService.PagesCoverListing` | src/tasks/tasks.service.ts:40-60 | FindAll's pages 1 to totalPages, one after the other, are exactly the caller's whole listing |
| `Tasks.TasksService.OnlyOwnerReaches` | src/tasks/tasks.service.ts:62-74 | for a stored task, every non-owner gets Forbidden and the owner gets the task |
| `Tasks.TasksService.FindOne` | src/tasks/tasks.service.ts:62-74 | NotFound exactly when no task has the id; otherwise Forbidden exactly when the caller is not its owner; otherwise the stored task unchanged |
| `Tasks.TasksService.Update` | src/tasks/tasks.service.ts:76-80 | fails exactly when FindOne fails, with FindOne's error and the store unchanged; on success only that task changes, to the stored task with the patch applied, and it is returned |
| `Tasks.TasksService.Remove` | src/tasks/tasks.service.ts:82-85 | fails exactly when FindOne fails, with FindOne's error and the store unchanged; on success exactly that id leaves the store, so any later get or remove of it is NotFound |
| `Tasks.ApplyPatch` | src/tasks/tasks.service.ts:78 | the fields the patch gives are overwritten and all others (id, owner, creation instant and absent fields) keep their values |
| `Tasks.PatchIdempotent` | src/tasks/tasks.service.ts:78 | applying a patch twice gives the same task as applying it once |
| `Tasks.EmptyPatchIsIdentity` | src/tasks/tasks.service.ts:78 | a patch without fields leaves the task as it was |
| `Auth.ResponseHidesPassword` | src/auth/auth.service.ts:19-26 | the token and user summary a client receives do not depend on the stored password hash |
| `Auth.FindIdByEmail` | src/auth/auth.service.ts:40-42 | finds a stored user with the email when one exists below the bound, and otherwise reports that none exists |
| `Auth.AuthService.constructor` | src/auth/auth.service.ts:30-34 | a new service over sound hash functions starts with an empty, consistent user store |
| `Auth.AuthService.FindByEmail` | src/auth/auth.service.ts:72 | returns the stored user with the email, or none exactly when no stored user has it |
| `Auth.AuthService.Register` | src/auth/auth.service.ts:36-67 | a taken email fails with the conflict error ("Email already exists") and leaves the store, the id counter and the kept plaintexts unchanged; otherwise one user is added under a fresh id, with the given email and name and the password hashed with cost 10; the response is the token signed over {sub: id, email} and the summary of that user; emails stay unique; the token's subject resolves to the new user; logging in with the same credentials signs the same payload and returns the same user summary |
| `Auth.AuthService.Login` | src/auth/auth.service.ts:69-93 | succeeds iff some stored user has the email and the password matches its hash; then it returns the token signed over that user's {sub, email} and its summary; every failure is the same "Invalid credentials" error |
| `Auth.AuthService.LoginWithSecret` | src/auth/auth.service.ts:47-54 | any stored user can log in with the password it registered with |
| `Auth.AuthService.WrongPasswordIsRejected` | src/auth/auth.service.ts:77-80 | a password that matches no hash stored for the email gives "Invalid credentials" |
| `Auth.AuthService.ValidateUser` | src/auth/auth.service.ts:95-97 | returns the stored user whose id is the payload's sub, or none exactly when no such user is stored |
| `Auth.AuthService.AuthenticatePayload` | src/auth/strategies/jwt.strategy.spec.ts:51-69 | a payload whose subject has no stored user is unauthenticated ("Unauthorized"); otherwise returns that user |

## Left out

- bcrypt internals: salt generation, the cost of the work factor, and constant-time comparison. `hash` is a deterministic function of password and cost, although bcrypt salts each call. No property here compares two hashes, so this does not matter.
- An error thrown by bcrypt's compare on a malformed stored hash. `compare` returns a boolean, so that error is not modelled.
- JWT signing, signature checking and expiry. `sign` is an uninterpreted function. The strategy that verifies the signature and expiry, `src/auth/strategies/jwt.strategy.ts`, is not part of this model; only its mapping of a missing user to Unauthorized is modelled (`AuthenticatePayload`).
- `updatedAt`: the ORM sets it on every save, so it is not modelled.
- The `user` object relation of the task entity, its delete cascade, and the foreign key that makes `userId` name an existing user. Only the `userId` column is modelled; the task service takes the caller's id as given.
- The users entity, the update-task DTO and the pagination DTO. `src/users/entities/user.entity.ts`, `src/tasks/dto/update-task.dto.ts` and `src/tasks/dto/pagination.dto.ts` are not part of this model. A user is `{id, email, password, name}`. A patch carries an optional title, description and status; that title and description cannot be set to null through it, and body properties outside the DTO are not modelled. Page and limit, when given, are integers of at least 1.
- Extra properties in a create-task body, beyond title, description and status, are not modelled. Whether the validation pipe strips them is configured in a file outside this model. Because `userId` is stamped after the input is spread, an extra `userId` would be overwritten in any case.
- The order of tasks with equal `createdAt`. The database leaves it unspecified, and it may differ from one query to the next. The model fixes one order: among equal `createdAt`, increasing id order as the insertion sort keeps it.
- Tasks.TasksService.PagesCoverListing: the pages cover the listing exactly once only because every page is cut from the same fixed order. Against the database, where tied tasks may come back in a different order for each page's query, a tied task can appear on two pages or on none.
- Tasks.TasksService.FindAll: `data` is the window of the model's one fixed order. Against the database, only the set of tasks on a page with no ties across its edges is fixed.
- Auth.AuthService.Register: `sign` is a function of the payload alone, so equal payloads give equal tokens, and a login right after registration returns the very response registration did. The real signer adds the issue and expiry times, so the two tokens differ whenever they are signed in different seconds.
- The database itself: the `findAndCount` query engine, the unique-email constraint behind the check-then-insert in `Register`, and concurrent requests. Operations run one at a time over in-memory maps.
- The message text of the task NotFound and Forbidden errors. Only the error kind and id are modelled.
- Controllers, the app module wiring, `ParseUUIDPipe`, the auth guard, and the HTTP exception filter. These are routing and response shaping with no logic of this core.
- The floating-point division inside `Math.ceil(total / limit)`: `PageCount` is the exact integer ceiling, which agrees with it for the counts a store can hold.
