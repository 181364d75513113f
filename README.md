# UserManagementAPI: users controller and middleware stages

A Dafny model of the decision logic of a small ASP.NET Core user API. It covers four parts:

- **`UsersController`**. The five actions of `api/users` (list a page, get, create, update, delete) run over an in-memory store of `User` records. The store is a sequence in store order with unique `Id`s, owned by a class. Every action states its status code, its result and its exact effect on the store.
- **`AuthenticationMiddleware`**. It takes the bearer token from the `Authorization` header and checks that the token decodes and has not expired. If not, it replies 401 itself; if so, it hands the request on.
- **`ExceptionHandlingMiddleware`** and **`ErrorHandlingMiddleware`**. They turn what the inner stages did (completed with a status, or threw an exception with a message) into the final response and its JSON envelope.
- **`LoggingMiddleware`**. It logs the request line, times the inner stages, and logs the final status and the elapsed time.

Each middleware stage is a class. It holds the `Next` stage it wraps and has a method `Invoke` that changes the request's `HttpContext` in place: status, content type, and body parts, kept as structured payloads. `Next` stands for the rest of the pipeline. It applies a fixed effect to the response, appends its own events to the shared `Logger`, advances the monotonic `Clock` by its duration, and either completes or throws. It counts its own invocations, so "`next` is called exactly once" is part of each contract.

Some inputs come from the outside world and are parameters:
- the email predicate of `EmailAddressAttribute`, a constant of the controller;
- the JWT handler's reading of a token, a `decode` function;
- the current instant `now`;
- a database failure on a call (`fault`);
- the key the store generates for a record whose `Id` is 0 (`freshKey`);
- how each body write a stage makes ends, as a failure script (`HttpContext.writeFailures`): a write fails with a message or succeeds, and a write beyond the script succeeds.

On these points the model follows the code:
- The token is the text after the last space of the first header value: `Bearer a b` yields `b`, and a value without a space is its own token.
- `ExceptionHandlingMiddleware` appends its 404 envelope after any body the inner stage already wrote. That is the code as written; on a running server the content-type assignment would throw once a body has started the response, which the model does not capture (see the read-only header line under "## Left out").
- `LoggingMiddleware` logs no exit event when an inner stage throws. It has no `finally`.
- The pipeline registered in `Program.cs` contains only `ExceptionHandlingMiddleware` of these stages. The other three are modelled standalone, and no composed pipeline is claimed.
- `ErrorHandlingMiddleware` sets `application/json`, but `WriteAsJsonAsync` then sets its own `application/json; charset=utf-8`. That second value is the final one.

## Model

| member | source | states |
|---|---|---|
| `Models.ValidUserMeans` | Models/User.cs:7-19 | The annotations mean: Name present, not blank, at most 50 characters; Email present, not blank, accepted by the email predicate; Role present, not blank, at most 20 characters |
| `Models.ValidUser` | Models/User.cs:9-19 | A valid record has a Name of 1 to 50 characters, an Email the email predicate accepts, and a Role of 1 to 20 characters |
| `Text.LastSegment` | AuthenticationMiddleware.cs:16 | `Split(" ").Last()`: the last segment, which contains no space |
| `Authentication.Admits` | AuthenticationMiddleware.cs:16-18 | The condition that lets a request through: a header value whose last segment is non-empty, readable, and expires after now |
| `Http.HttpContext.WriteAsJson` | AuthenticationMiddleware.cs:21 | `WriteAsJsonAsync` sets the JSON content type with charset, replacing any set before, then appends the payload or throws the stream's failure |
| `UserStore.Find` | Controllers/UsersController.cs:55 | `FindAsync(id)` returns a stored record carrying id, or null when no stored record carries it |
| `Text.Split` | AuthenticationMiddleware.cs:16 | `Split(" ")` yields at least one segment, and no segment contains a space |
| `Text.JoinSplit` | AuthenticationMiddleware.cs:16 | Joining the segments with single spaces gives back the original text |
| `Text.SplitJoin` | AuthenticationMiddleware.cs:16 | Splitting the space-joined text of space-free segments gives back the segments (Split and Join are inverses) |
| `Text.LastSegmentIsTextAfterLastSpace` | AuthenticationMiddleware.cs:16 | `Split(" ").Last()` is a space-free suffix that is either the whole text or is preceded by a space |
| `Text.TokenFollowsLastSpace` | AuthenticationMiddleware.cs:16 | When position k holds the last space, the token is exactly the text after k |
| `Text.TrailingSpaceGivesEmptyToken` | AuthenticationMiddleware.cs:16 | A header value ending in a space yields the empty token |
| `Text.SpaceFreeIsOwnToken` | AuthenticationMiddleware.cs:16 | A header value without a space is its own token |
| `Text.TokenExamples` | AuthenticationMiddleware.cs:16 | "Bearer a b" gives "b", "abc" gives "abc", "Bearer " gives "" |
| `Authentication.ExtractToken` | AuthenticationMiddleware.cs:16 | Null exactly when the header has no value; otherwise the text after the last space of the first value |
| `Authentication.ValidateToken` | AuthenticationMiddleware.cs:28-45 | True iff the token is readable and its expiry is strictly after now; an unreadable token or a throwing read gives false and nothing propagates |
| `Authentication.MissingHeaderRefused` | AuthenticationMiddleware.cs:16-23 | A request without an Authorization header is refused |
| `Authentication.TrailingSpaceRefused` | AuthenticationMiddleware.cs:16-18 | A header value ending in a space (such as "Bearer ") carries the empty token and is refused |
| `Authentication.ExpiredTokenRefused` | AuthenticationMiddleware.cs:18-36 | A readable token whose expiry is at or before now is refused |
| `Authentication.AdmitsMeans` | AuthenticationMiddleware.cs:16-36 | A request passes iff a header value exists and its last segment is non-empty, readable, and expires after now |
| `Authentication.AuthenticationMiddleware.Invoke` | AuthenticationMiddleware.cs:14-26 | Admitted: `next` runs once and the response is exactly what `next` made of it. Refused: `next` is not run, status 401, JSON content type, `{"error":"Unauthorized"}` appended, or the stream's error if the write fails |
| `ExceptionHandling.ExceptionHandlingMiddleware.Invoke` | ExceptionHandlingMiddleware.cs:16-32 | `next` runs once. A non-404 completion is left untouched. A 404 keeps its status, gets JSON content type and the 404 envelope after the existing body. A throw gives 500, JSON, and the envelope with the message as Details. A failing 404 write is handled the same way: 500 and the envelope with the write's message, completing normally. A failing write in the handler escapes |
| `ExceptionHandling.ExceptionHandlingMiddleware.HandleException` | ExceptionHandlingMiddleware.cs:34-47 | Status 500, JSON content type, and an envelope whose StatusCode equals the status just set, with Details the exception message |
| `ExceptionHandling.ExceptionHandlingMiddleware.HandleNotFound` | ExceptionHandlingMiddleware.cs:49-59 | JSON content type and `{"StatusCode":404,"Message":"Resource not found."}` appended; the status is not touched |
| `ErrorHandling.ErrorHandlingMiddleware.Invoke` | ErrorHandlingMiddleware.cs:12-23 | `next` runs once. On completion the response is as `next` left it and nothing is logged. On a throw exactly one error event with the exception's message is logged, and the response becomes 500 with the fixed body |
| `ErrorHandling.ErrorHandlingMiddleware.HandleException` | ErrorHandlingMiddleware.cs:25-31 | Status 500, JSON content type, and `{"error":"Internal server error."}`, which does not depend on the exception |
| `Logging.LoggingMiddleware.Invoke` | LoggingMiddleware.cs:14-25 | `next` runs once and the response is exactly what `next` made of it. The entry event (method, path) precedes everything `next` logs. On completion, the exit event carries the final status and the elapsed time, a non-negative duration. On a throw there is no exit event |
| `Controllers.CheckFields` | Controllers/UsersController.cs:74-82 | A blank or null Name or Email gives "Name and Email are required." before the email predicate is consulted; then a rejected email gives "Invalid Email address."; none iff both present and the email is accepted |
| `Controllers.ValidUsersPassChecks` | Controllers/UsersController.cs:74-82 | Every record that satisfies the model's annotations passes the action's checks |
| `Controllers.ChecksIgnoreLengthAndRole` | Controllers/UsersController.cs:74-82 | The action's checks are weaker than the annotations: a 51-character Name with no Role passes them |
| `UserStore.IndexOf` | Controllers/UsersController.cs:55 | Returns a position holding the key, or none when no record carries it |
| `UserStore.FindExactly` | Controllers/UsersController.cs:55 | With unique keys, `FindAsync(id)` returns u iff u is stored and carries id |
| `UserStore.AppendFrame` | Controllers/UsersController.cs:86-87 | Adding under a fresh key keeps keys unique, finds the new record and changes no other key |
| `UserStore.ReplaceFrame` | Controllers/UsersController.cs:116-121 | Replacing the record for a key keeps keys unique, finds the new record and changes no other key |
| `UserStore.RemoveFrame` | Controllers/UsersController.cs:150-152 | Removing a record keeps keys unique, makes its key absent and changes no other key |
| `UserStore.Page` | Controllers/UsersController.cs:30-33 | Skip/Take returns at most pageSize records, the ones at positions (page-1)*pageSize onward in store order; it is empty iff the skip reaches past the store; a short page is the last one |
| `UserStore.EveryRecordIsOnAPage` | Controllers/UsersController.cs:30-33 | The record at position i appears on page i/pageSize+1 at position i%pageSize |
| `UserStore.PagesAreDisjoint` | Controllers/UsersController.cs:30-33 | Each page entry is a stored record, and its store position determines the page and the offset, so no store position appears on two pages |
| `Controllers.UsersController.constructor` | Controllers/UsersController.cs:13-16 | The controller starts over the given store with unique keys |
| `Controllers.OmittedPaging` | Controllers/UsersController.cs:21 | A listing query that omits `page` and `pageSize` is bound to their declared defaults 1 and 10, and so lists exactly the first ten stored records, or all of them when fewer are stored |
| `Controllers.UsersController.GetUsers` | Controllers/UsersController.cs:21-46 | page or pageSize at most 0 gives 400 before the store is read. A database failure gives 500. Otherwise the result is 404 iff the page is empty, and else 200 with exactly the store's records at positions (page-1)*pageSize onward, at most pageSize of them |
| `Controllers.UsersController.GetUser` | Controllers/UsersController.cs:51-66 | 200 with u iff u is the stored record with that id; 404 with "User with ID {id} not found." when none; 500 on a database failure; the store is not changed |
| `Controllers.UsersController.CreateUser` | Controllers/UsersController.cs:71-94 | Failed checks give 400 with their message and leave the store unchanged. A database failure or an existing key gives 500, also unchanged. Otherwise 201, the record (with the generated key if its Id was 0) is appended, and every other key is unchanged |
| `Controllers.UsersController.UpdateUser` | Controllers/UsersController.cs:99-135 | An id mismatch gives 400 first, even with blank fields. Then the field checks give 400, and a database failure gives 500. An absent id gives 404. All of these leave the store unchanged. Otherwise 204, and the given record replaces the one for id at the same position, so every other key and position is unchanged |
| `Controllers.UsersController.DeleteUser` | Controllers/UsersController.cs:140-158 | A database failure gives 500. An absent id gives 404 with the store unchanged. A present id gives 204, and that record is cut out of the sequence, so its key is absent and every other key keeps its record and relative order |

## Left out

- The rate limiter (`Program.cs:33-45`) is configuration of a library algorithm that is not part of this model. Its partition key (remote address or "anonymous") is left out with it.
- Host wiring in `Program.cs` is not modelled: dependency injection, Swagger, Serilog, HTTPS redirection, authorization, the registered pipeline, and seeding an empty store.
- Automatic model validation by `[ApiController]` is not modelled. It rejects invalid bodies with 400 before an action runs. The actions are modelled as called directly, so their own checks are the only ones.
- The JWT handler, `EmailAddressAttribute.IsValid` and `DateTime.UtcNow` are parameters. No signature check exists in the code, so none is modelled.
- EF Core internals are abstracted: change tracking, async saving, and how keys are generated.
  - A database failure is an abstract `fault` that yields 500 with its message.
  - A duplicate key on create is a 500 with `DuplicateKey`.
  - The `DbUpdateConcurrencyException` re-throw in `UpdateUser` (`Controllers/UsersController.cs:129`) is not modelled. Neither is a failure of the `Any` query inside that handler.
- Controllers.UsersController.UpdateUser: EF Core's handling of an entity whose `Id` is the default 0 when it is marked `Modified` is not modelled. The model treats id 0 like any other key.
- ASP.NET Core makes response headers read-only once a body write has started the response. That is not modelled. So are the exceptions that setting the content type or the status would then raise.
- Response bodies are structured payloads, not JSON bytes. Log events are structured values, not formatted messages.
- The clock counts whole milliseconds, and the inner stage's duration is a parameter. Real stopwatch ticks are not modelled.
- Async scheduling and concurrent requests are not modelled. Neither is the int32 overflow of `(page - 1) * pageSize` (`Controllers/UsersController.cs:31`): integers are unbounded.
- Controllers.UsersController.CreateUser: the list query has no `OrderBy`, so the source fixes no order for the store. Appending the new record at the end is this model's choice, and the positions `GetUsers` pages over follow from it.
- Models.ValidUserMeans: `[StringLength]` counts UTF-16 code units. The model counts characters, which differ only for characters outside the Basic Multilingual Plane.
- Models.ValidUser: the same difference, through the length check `Models.WithinLength` it uses.
