# User registration behind `asyncHandler`

This project models the user-registration endpoint of a small Express/Mongoose
account service and the `asyncHandler` wrapper that turns a failed handler into
an HTTP response.

Registration runs a fixed sequence of checks in front of one insert into the user
collection:

1. blank-field validation (`field?.trim() === ""`);
2. duplicate detection by username or email;
3. reading the avatar's local path, then the optional cover image's local path;
4. avatar presence;
5. the uploads to the media store;
6. creating the record, with the username lower-cased and `""` as the default cover image;
7. re-fetching the record without its secrets.

`asyncHandler` answers every rejection with status 500 and
`{success: false, message}`. The status an `ApiError` carries never reaches
the client.

Modules:

- `Wrappers`: `Option`; `None` stands for `undefined`.
- `JsString`: `trim` (ECMAScript white space and line terminators) and `toLowerCase`.
- `ApiTypes`: `ApiError`, errors thrown by the runtime or the database, the `ApiResponse` envelope and the response.
- `AsyncHandler`: `Respond` maps how the handler's promise settled to the response the client gets.
- `UserModel`: the stored `User` record and its secret-free projection. Also the `UserStore` class, whose `users` sequence `FindOne`, `FindById` and `Create` read and extend.
- `UserController`:
  - `Registration`: the reference definition of one run, giving how it settles, which local paths were uploaded and which record was stored.
  - `RegisterUser`: the step-by-step handler over a `UserStore`, proved to do exactly what `Registration` says.
  - `RegisterUserRoute`: the exported `registerUser = asyncHandler(handler)`.
  - the lemmas about all of these.

The handler cannot decide some answers itself, so they are inputs (`External`):

- the URL each upload returns, or nothing;
- whether `User.findOne` rejects, and with which message;
- whether `User.create` rejects, and with which message;
- whether the re-fetch after the create rejects, and with which message;
- otherwise, whether the re-fetch resolves to the record or to nothing.

Where the service's documented intent differs from the code, the model follows the code:

- Every failure reaches the client as 500, not as 400 or 409. `asyncHandler` ignores `ApiError.statusCode`.
- An absent body field passes the blank-field check. Only a present, all-white-space string is rejected.
- The duplicate check compares the username as supplied. The record stores it lower-cased. So "Alice" is not a duplicate of a stored "alice". A second "alice" is then stored unless `User.create` rejects it. A unique index on username would reject it, giving 500 with the database's message. `CaseVariantDuplicatesUsername` proves this for the case where the create is accepted.
- Suppose `req.files` exists but has no `avatar` key. The code then throws a TypeError at the avatar lookup; it does not report "Avatar image is required".

## Model

| member | source | states |
|---|---|---|
| `JsString.Trim` | src/controllers/user.controller.js:20 | `trim()` is empty exactly when every code point of the string is white space; otherwise the result starts and ends with a non-space |
| `JsString.ToLower` | src/controllers/user.controller.js:59 | `toLowerCase()` keeps the length, lowers each letter on its own, and leaves no upper-case letter |
| `JsString.ToLowerFixedIff` | src/controllers/user.controller.js:59 | a username is stored unchanged exactly when it has no upper-case letter |
| `UserController.AnyBlank` | src/controllers/user.controller.js:19-20 | the `.some(field?.trim() === "")` test is true exactly when some field is present and made only of white space; an absent field never counts |
| `UserModel.UserStore.FindOne` | src/controllers/user.controller.js:25-27 | returns nothing exactly when no stored user has the supplied username or email; otherwise returns the first stored user that does |
| `UserModel.UserStore.FindById` | src/controllers/user.controller.js:66-68 | finds the record with the id exactly when one is stored, and returns it without password and refresh token |
| `UserModel.UserStore.Create` | src/controllers/user.controller.js:57-64 | appends exactly one record with the given fields, a fresh id and no refresh token; nothing else changes; ids stay increasing |
| `UserController.Registration` | src/controllers/user.controller.js:7-73 | a record is stored exactly when the run reaches `User.create` and the create is accepted; such a run fails only at the re-fetch, with the driver's message when the re-fetch rejects and 500 "Internal database error" when it finds nothing; it has the next id, the lower-cased username, fullName/email/password as given, the avatar url, no refresh token; success is 201 with that record minus its secrets; the first upload is the avatar path |
| `UserController.RegisterUser` | src/controllers/user.controller.js:18-72 | the handler settles and uploads as `Registration` says; the store gains exactly the record `Registration` creates and nothing else |
| `UserController.RegisterUserRoute` | src/controllers/user.controller.js:7 | the client receives `asyncHandler`'s response to the handler's outcome, and the store changes as `Registration` says |
| `UserController.BlankFieldRejectedFirst` | src/controllers/user.controller.js:19-23 | a present white-space-only field fails with 400 "All fields are required", with no upload and no record; the result does not depend on the store or on the external services, so no lookup happened |
| `UserController.MissingUsernameFailsAtLowerCase` | src/controllers/user.controller.js:20-59 | an absent username is not blank; a request that passes the other checks uploads its files and then fails with a TypeError at `username.toLowerCase()`, storing nothing |
| `UserController.DuplicateRejected` | src/controllers/user.controller.js:25-31 | a stored user with the supplied username or email gives 409, no upload and no record |
| `UserController.AvatarPathRequired` | src/controllers/user.controller.js:33-46 | after the blank and duplicate checks pass, these give 400 "Avatar image is required" before any upload and with no record: no files object, an empty avatar array, or a first avatar entry without a usable path |
| `UserController.MissingAvatarKeyThrows` | src/controllers/user.controller.js:33 | a files object without an `avatar` key throws a TypeError at `avatar[0]`, with no upload and no record |
| `UserController.CoverImageOnlyFromNonEmptyArray` | src/controllers/user.controller.js:35-63 | the avatar is uploaded first; the cover is uploaded only when `coverImage` is a non-empty array whose first path is usable; otherwise a stored record's cover image is "" |
| `UserController.AvatarUploadFailure` | src/controllers/user.controller.js:48-55 | an avatar upload that returns nothing gives 500 "Internal cloudinary upload error" and no record; the cover upload, if any, was attempted before |
| `UserController.SucceedsIff` | src/controllers/user.controller.js:19-72 | registration succeeds exactly when all of these hold: the lookup resolves, every check passes, the avatar upload returns a url, the username is present, the create is accepted and the re-fetch resolves to the record |
| `UserController.LookupRejectionReported` | src/controllers/user.controller.js:25-27 | a rejected `User.findOne` fails the run with the driver's message, before any upload and with no record; the client sees 500 with that message |
| `UserController.RefetchRejectionKeepsRecord` | src/controllers/user.controller.js:66-68 | a rejected re-fetch fails the run with the driver's message, not "Internal database error", and the created record stays stored |
| `UserController.RefetchMissKeepsRecord` | src/controllers/user.controller.js:57-71 | a re-fetch that sees nothing gives 500 "Internal database error", and the created record stays stored |
| `UserController.ClientSeesEveryFailureAs500` | src/utils/asyncHandler.js:13-19 | through `asyncHandler` the client gets 201 exactly on success; every other response is 500 with `{success: false, message}`, the message copied from the thrown error |
| `UserController.BlankFieldSeenAs500` | src/controllers/user.controller.js:22 | the 400 blank-field error reaches the client as 500 with the message "All fields are required" |
| `UserController.DuplicateSeenAs500` | src/controllers/user.controller.js:30 | the 409 duplicate error reaches the client as 500 with its message |
| `UserController.RegistrationKeepsEmailsDistinct` | src/controllers/user.controller.js:25-31 | if no two stored users share an email, none do after a registration |
| `UserController.LowerCaseRegistrationKeepsUsernamesDistinct` | src/controllers/user.controller.js:25-59 | if no two stored users share a username, none do after a registration whose username has no upper-case letter A–Z |
| `UserController.CaseVariantDuplicatesUsername` | src/controllers/user.controller.js:25-59 | a request whose username lowers to a stored username passes the duplicate check, succeeds, and leaves two users with the same username, when the create is accepted |
| `AsyncHandler.Respond` | src/utils/asyncHandler.js:13-20 | a rejected handler is answered with status 500 and `{success: false, message}` carrying the error's message; a resolved handler's own response goes out unchanged |
| `AsyncHandler.CarriedStatusIgnored` | src/utils/asyncHandler.js:14-18 | two errors with the same message produce the same response, whatever status codes they carry |
| `AsyncHandler.Non500IsHandlerResponse` | src/utils/asyncHandler.js:14 | a response that is not a 500 failure body was written by the handler itself |

## Left out

- src/index.js: loading the environment, choosing the port, connecting to the database and starting the server are startup I/O.
- The media-store upload (`uploadOnCloudinary`, not part of this model): each upload is an input, a url or nothing. An upload that throws instead of returning nothing is not modelled.
- Database query semantics beyond exact equality. A username or email absent from the body is treated as matching no stored user. What the database does with an undefined filter value is not modelled.
- The user schema is not part of this model. That covers its required fields, its unique indexes and its password-hashing pre-save hook. Whether `User.create` rejects is an input. The stored password is the value as given.
- `JsString.ToLower`: lowers only the ASCII letters A–Z. Unicode case mapping, including mappings that change the length, is not modelled.
- `JsString.Trim`: strings are sequences of code points. UTF-16 code units are not modelled.
- Body fields that are not strings are not modelled. A number, for instance, would make `.trim` throw. A missing `req.body` is not modelled either.
- `avatar` / `coverImage` values that are not arrays are not modelled. The `Array.isArray` test is therefore always true in the model.
- The TypeError messages are the ones the V8 engine produces. Other engines word them differently.
- `None` stands for `undefined` only. A `null` body field or `avatar` value is not modelled; V8 would report it as "Cannot read properties of null (…)".
- `asyncHandler`: the promise scheduling is reduced to the handler's settled outcome. Also not modelled:
  - a synchronous throw by a non-async handler;
  - a handler that writes a response and then rejects;
  - `next`, which is never called.
- The commented-out earlier `asyncHandler` (src/utils/asyncHandler.js:1-11) is dead code.
- `ApiError` / `ApiResponse` internals (not part of this model) are reduced to a status code and a message, or a status code and a payload.
- Login, logout, token refresh, password change and profile updates are not in the modelled sources.
