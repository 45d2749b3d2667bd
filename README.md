# User directory of the baka file/link host

This project models, in Dafny, the user directory behind the `/api/users`
endpoints of the baka file and link host. It also models the records that the
directory stores.

- `entities.dfy` (module `Entities`) covers the records of `BakaContext.cs`:
  - `BakaUser`, `BakaFile` and `BakaLink` are datatypes.
  - Their derived getters are member functions: `Epoch`, `BakaUploaderId` and
    `ContentType`.
  - The epoch string is the timestamp's file time written as a decimal
    numeral. It is proved to read back to the timestamp (`ParseDecimal`), so
    two records have the same epoch string exactly when their timestamps are
    equal.
- `users_api.dfy` (module `UsersApi`) covers `UsersApiController.cs`:
  - The class `UsersApiController` holds the Users table as a
    `seq<BakaUser>`. It also holds `nextId`, the key that the store gives the
    next inserted row.
  - The three lookups are functions that read the table. `FirstOrDefault` is
    `FindFirst`: the first matching record in table order.
  - Create, delete, disable and reset-token are methods that modify the
    table. Each one states the whole new table.
  - Every handler takes the decision of `Authorize("su_full")` as an
    `AuthModel` argument. When that decision is a refusal, the handler answers
    `Failure(401, Reason)` and the table is unchanged.
  - If no record matches the key, every handler answers
    `Failure(404, "404 Not Found")` and the table is unchanged.
  - `Globals.GenerateToken` is a function argument `generateToken`.
  - `Globals.Config.PreserveDeletedFiles` is a `Config` argument.
  - `DateTime.Now` is a `FileTime` argument.
- `wrappers.dfy` holds `Option`, which stands for nullable references.

Token freshness is an assumption about the token generator. The model does not
require it. Instead, it appears as a hypothesis (`TokenFresh`) in the
postconditions that depend on it:

- After a create, the new token resolves to the new user.
- After a reset, the new token resolves to the same record and the old token
  no longer matches that record.
- If tokens were pairwise distinct (`TokensDistinct`) before a create or a
  reset, they still are afterwards. After a reset, the old token then answers
  404.

The store does not declare tokens unique, so `TokensDistinct` is not part of
the class invariant.

The class invariant `Valid()` (`TableInvariant`) says three things:

- Every key lies in `[1, nextId)`.
- Keys increase along the table, so no two records have the same key. The
  first match in table order is also the match with the least key.
- Every file and link that a user lists names that user as its uploader.

Every handler preserves `Valid()`.

`GetUserFromId` is inconsistent as written:

- Its query compares `Id` with `id` (`baka/Controllers/API/UsersApiController.cs:100`),
  but nothing in this file declares `id`. The base class `BakaController` is
  not part of this model.
- Its route template at `:80` repeats the email route `from-email/{...}`.
- Its parameter at `:81` is named `email`.

The model gives the evident intent: a lookup of the record whose `Id` equals
the integer argument.

## Model

| member | source | states |
|---|---|---|
| `Entities.DecimalString` | baka/Models/Entity/BakaContext.cs:49 | the text form of a file time is non-empty, all digits, and has no leading zero unless the value is 0 |
| `Entities.ParseDecimalString` | baka/Models/Entity/BakaContext.cs:49 | reading the decimal text of `n` back gives `n` |
| `Entities.EpochOf` | baka/Models/Entity/BakaContext.cs:49 | the epoch string of a timestamp consists of digits and reads back to that timestamp |
| `Entities.BakaUser.Epoch` | baka/Models/Entity/BakaContext.cs:49 | a user's epoch string consists of digits and reads back to its `Timestamp` |
| `Entities.BakaFile.Epoch` | baka/Models/Entity/BakaContext.cs:105 | a file's epoch string consists of digits and reads back to its `Timestamp` |
| `Entities.BakaLink.Epoch` | baka/Models/Entity/BakaContext.cs:148 | a link's epoch string consists of digits and reads back to its `Timestamp` |
| `Entities.BakaFile.BakaUploaderId` | baka/Models/Entity/BakaContext.cs:95 | defined only when the uploader reference is set; it is the key of the referenced user |
| `Entities.BakaLink.BakaUploaderId` | baka/Models/Entity/BakaContext.cs:141 | defined only when the uploader reference is set; it is the key of the referenced user |
| `Entities.BakaFile.ContentType` | baka/Models/Entity/BakaContext.cs:109-115 | the MIME lookup of the file's extension |
| `Entities.EpochInjective` | baka/Models/Entity/BakaContext.cs:49 | two timestamps have the same epoch string if and only if they are equal |
| `Entities.EpochIsTimestamp` | baka/Models/Entity/BakaContext.cs:105 | the user, file and link `Epoch` getters each read back to their own `Timestamp`, and two records agree on `Epoch` exactly when their timestamps agree |
| `Entities.ContentTypeFollowsExtension` | baka/Models/Entity/BakaContext.cs:109-115 | a file's content type is the MIME lookup of its extension, so two files with the same extension have the same content type |
| `Entities.OwnedItemsReportOwner` | baka/Models/Entity/BakaContext.cs:141 | every file and link that a user owns has its uploader reference set, and its `BakaUploaderId` is that user's `Id` |
| `Entities.NewBakaUser` | baka/Models/Entity/BakaContext.cs:27-31 | a new user starts with empty `Files` and `Links` (and so owns its items trivially) |
| `UsersApi.FindFirst` | baka/Controllers/API/UsersApiController.cs:35 | the result is the position of the first record that matches the key, with no earlier match; the result is absent exactly when no record matches |
| `UsersApi.Project` | baka/Controllers/API/UsersApiController.cs:40-55 | the full projection; its timestamp is a digit string that reads back to the user's `Timestamp`, and its links and files are the user's whole collections, not filtered by their deleted flags (the same projection as at :105-120 and :251-266) |
| `UsersApi.ProjectCreated` | baka/Controllers/API/UsersApiController.cs:189-201 | the create answer; its timestamp is a digit string that reads back to the new user's `Timestamp` |
| `UsersApi.Lookup` | baka/Controllers/API/UsersApiController.cs:18-55 | the lookup handler the three lookups share: 401 with the gate's reason when refused, without looking at the table; otherwise 404 when nothing matches the key, or the full projection of the first match |
| `UsersApi.ProjectionIsFaithful` | baka/Controllers/API/UsersApiController.cs:40-55 | the full projection omits nothing: two users have the same projection if and only if they are the same record |
| `UsersApi.CreatedIsNarrowedProjection` | baka/Controllers/API/UsersApiController.cs:189-201 | the create answer carries the full projection's id, username, name, initial_ip, timestamp, token, deleted, disabled, email and upload_limit, and nothing else |
| `UsersApi.UsersApiController.GetUserFromEmail` | baka/Controllers/API/UsersApiController.cs:15-55 | a refused caller gets 401 with the gate's reason; otherwise the answer is 404 when no email matches, or the full projection of the first user with that email, soft-deleted users included |
| `UsersApi.UsersApiController.GetUserFromId` | baka/Controllers/API/UsersApiController.cs:80-120 | the same as the email lookup, keyed on `Id` (the intended behaviour) |
| `UsersApi.UsersApiController.GetUserInfo` | baka/Controllers/API/UsersApiController.cs:225-266 | the same as the email lookup, keyed on `Token` |
| `UsersApi.UsersApiController.CreateUser` | baka/Controllers/API/UsersApiController.cs:145-201 | 401 leaves the table unchanged. Otherwise exactly one user is appended and no existing user changes. The new user is the constructor's record (empty collections) with the request's name, username, email and upload limit; `Deleted` and `Disabled` false; type "su_upload"; no initial IP; the creation time; the token generated for that record before it has a key; and the next key. The answer is its narrowed projection. The key then resolves to the new user; a fresh token resolves to it too and keeps tokens distinct |
| `UsersApi.UsersApiController.DeleteUser` | baka/Controllers/API/UsersApiController.cs:282-320 | 401 and 404 leave the table unchanged. Otherwise the first holder of the token is removed when `PreserveDeletedFiles` is off. When it is on, only the holder's `Deleted` becomes true, and its files and links are untouched. Either way the answer is `deleted: true` with code 200. After a hard delete the user's key answers 404; after a soft delete it answers the projection with `deleted` true. With distinct tokens, the token still resolves only under soft delete |
| `UsersApi.UsersApiController.DisableUser` | baka/Controllers/API/UsersApiController.cs:338-372 | 401 and 404 leave the table unchanged. Otherwise only `Disabled` of the first holder of the token becomes true, the answer is `disabled: true`, and the same token still resolves to that user with `disabled` true |
| `UsersApi.UsersApiController.ResetUserToken` | baka/Controllers/API/UsersApiController.cs:388-426 | 401 and 404 leave the table unchanged. Otherwise only the `Token` of the first holder becomes `generateToken` of the holder as loaded without its files and links, and the answer is that `new_token`. If the new token is fresh, it resolves to the same record and the record no longer matches the old token. If tokens were also distinct before, they stay distinct and the old token answers 404 |
| `UsersApi.RemoveKeepsInvariant` | baka/Controllers/API/UsersApiController.cs:308-309 | removing a record keeps keys bounded and increasing and items owned, and no record is left with the removed key |
| `UsersApi.AppendKeepsInvariant` | baka/Controllers/API/UsersApiController.cs:183-184 | appending a record that owns its items under the next key keeps the table invariant, and the new key finds exactly that record |
| `UsersApi.IncreasingIdsAreDistinct` | baka/Controllers/API/UsersApiController.cs:100 | keys that increase along the table are pairwise distinct |
| `UsersApi.FirstMatchHasLeastId` | baka/Controllers/API/UsersApiController.cs:35 | when keys increase along the table, the first match for any key is the match with the least `Id` |
| `UsersApi.RemoveOnlyMatch` | baka/Controllers/API/UsersApiController.cs:309 | removing the only record that matches a key leaves no match for it |
| `UsersApi.UpdateKeepsInvariant` | baka/Controllers/API/UsersApiController.cs:311 | changing a record's flags or token, and not its key or owned items, keeps the table invariant |
| `UsersApi.UpdateKeepsFirstMatch` | baka/Controllers/API/UsersApiController.cs:364 | a first match that still matches after an in-place change stays the first match |
| `UsersApi.UpdateWithFreshKey` | baka/Controllers/API/UsersApiController.cs:419 | a record given a token that nobody held becomes the first match for it |
| `UsersApi.UpdateDropsOnlyMatch` | baka/Controllers/API/UsersApiController.cs:419 | when the only holder of a token gets a different token, nothing matches the old token |
| `UsersApi.AppendWithFreshKey` | baka/Controllers/API/UsersApiController.cs:183 | an appended record whose key nobody held is the first match for that key |
| `UsersApi.FreshTokenKeepsTokensDistinct` | baka/Controllers/API/UsersApiController.cs:181 | a fresh token keeps tokens pairwise distinct, whether it comes with a new record or replaces a record's token |
| `UsersApi.DistinctTokenHolder` | baka/Controllers/API/UsersApiController.cs:303 | with distinct tokens, the first holder of a token is its only holder |
| `UsersApi.DistinctIdResolves` | baka/Controllers/API/UsersApiController.cs:100 | with distinct keys, the lookup of a user's own key finds that user |

## Left out

- HTTP and MVC plumbing is not modelled: routing, `Json(...)`, status-code assignment and JSON property names. Answers are a `Response` datatype, and `StatusCode()` gives the HTTP status.
- The duplicate `{token}` routes are not modelled, because routing is out of scope.
- Entity Framework and SQLite wiring is not modelled: `DbSet`, `Include`, `SaveChangesAsync` and `async`. The table is an in-memory sequence in row order, and `FirstOrDefault` is taken as the first row in that order.
- Key assignment on insert is modelled as a counter that only grows, which is how an auto-incremented key behaves. The storage engine itself is not modelled.
- The bodies of `Authorize`, `Globals.GenerateToken` and `BakaMime.GetMimeType` are not part of this model. Their results come in as arguments.
- Token freshness is not proved. It is a hypothesis of the postconditions that depend on it.
- The clock and time zones are not modelled: `DateTime.Now` and the local-to-UTC conversion inside `ToFileTimeUtc`. A timestamp is the file time that conversion yields.
- Floating point is not modelled: `UploadLimitMB` and `FileSizeMB` are bit patterns that are only passed through.
- The `catch` blocks, the 500 answers and the debug-only `exception` field are not modelled.
- Concurrent requests, and the last-write-wins races between them, are not modelled.
- `null` strings are not modelled: a request field may be `null`, and so may a record's string fields before they are set. Strings are never null in the model.
- `NewBakaUser`: the C# default `null` strings are the empty string and the unset key is 0. The record that `CreateUser` passes to the token generator therefore has `Id` 0 and `Token` "". The default timestamp is 0 (1601-01-01), whereas the C# default `DateTime` is year 1, which has no file time; `CreateUser` always overwrites it.
- Collections are not modelled as ordered. `Files` and `Links` are sets, and the order in which `ToList` lists them is not modelled.
- `UsersApi.UsersApiController.DeleteUser`: a user's files and links are stored inside its record, so a hard delete removes them with it. In the store they are rows of their own tables, and only the user row is removed. Depending on the schema, which is not part of this model, the items are then left as orphans, or the foreign key refuses the delete and the caller gets a 500. The model captures neither outcome.
- `UsersApi.UsersApiController.CreateUser`: the create answer's `timestamp` and a later lookup's `timestamp` are the same in the model. In the running system they can differ by the host's time-zone offset: create converts a local `DateTime.Now` to UTC, while a value read back from the store has an unspecified kind.
- Keys are unbounded integers: `Id` is a 32-bit `int` in the store, and the model does not bound `nextId` or capture its overflow.
- A list-all-users operation is not modelled: the user controller has no such handler.
