# Blog back-end: accounts, claims, validation and categories in Dafny

This project models the small pieces of real logic in an ASP.NET blog
back-end and proves what they promise:

- **Account slug and login** (`AccountController`): the slug of a new account
  is its e-mail with every `@` and `.` replaced by `-`, case kept. Login is a
  decision ladder. An invalid payload gets 400 with its validation errors. An
  unknown e-mail gets 401. A stored hash that rejects the password gets the
  same 401. A user with no hash skips the password check. Otherwise a token is
  issued. Registration stores the new user and maps each persistence outcome
  to a status code.
- **Claims builder** (`RoleClaimsExtension.GetClaims`): one Name claim for the
  e-mail, then one Role claim per role slug, in order.
- **Request validation** (`CategoryViewModels`, `LoginViewModels`,
  `DataAnnotations`): the declared `[Required]`, `[StringLength]` and
  `[EmailAddress]` constraints become per-field checks with their messages.
  `ModelStateExtension.GetErrors` flattens the validation state into one
  message list, in order.
- **Category table and cached listing** (`CategoryController.CategoryStore`):
  a class that holds the table as a `map<int, Category>`, its identity counter
  and the single cache slot with a one-hour absolute expiry. Its methods are
  list, get-by-id, create, update and delete.
- **Route flags** (`Routing`): which routes need a token.

Time is an integer clock in seconds, passed in as `now`. What the database
does with a request is a `Fault` parameter: `NoFault`, `UpdateFailure` (a
`DbUpdateException` while saving) or `OtherFailure` (any other exception,
taken to happen at the first database call). A failed save stores nothing.
Collaborators outside the repository are parameters:

- the e-mail format rule of `[EmailAddress]` is `isEmail`;
- `PasswordHasher.Verify` is `verify`;
- the token service is `generateToken`, which gives `None` when it throws;
- the generated password and its hash are given as values.

Responses are a status code plus either data or a list of error messages.
`ResultViewModel` is not part of this model. A response built from a single
string is taken to carry that string as its one error message.

Three points about the code:

- The account slug is **not** lower-cased (`AccountController.cs:33`).
- Registration is **not** anonymous. It inherits the controller's
  `[Authorize]`; only `Login` carries `[AllowAnonymous]`.
- Registration reports every `DbUpdateException` as "Este E-mail já está
  cadastrado", not only a uniqueness violation.

`[Required]` rejects null, empty and white-space-only strings.
`[StringLength]` and `[EmailAddress]` accept null. So an empty category name
gets both the Required and the length message, and a missing one gets only
the Required message.

## Model

| member | source | states |
|---|---|---|
| `Strings.Replace` | Controllers/AccountController.cs:33 | `Replace(c, d)` keeps the length; each position holds `d` where the input had `c` and the input's character otherwise |
| `Strings.ToLower` | Controllers/CategoryController.cs:71 | lower-casing keeps the length and lower-cases each ASCII letter at its position, leaving every other character alone |
| `Strings.ToLowerIdempotent` | Controllers/CategoryController.cs:103 | lower-casing a lower-cased slug changes nothing |
| `ModelStateExtension.GetErrors` | Extensions/ModesStateExtension.cs:8-14 | the flattened list has one message per recorded error, and it is empty exactly when every entry is error-free (`IsValid`) |
| `ModelStateExtension.GetErrorsAppend` | Extensions/ModesStateExtension.cs:10-13 | flattening two runs of entries gives the first run's messages followed by the second's |
| `ModelStateExtension.GetErrorsAt` | Extensions/ModesStateExtension.cs:10-13 | error `j` of entry `k` appears at index (errors before entry `k`) + `j`: no message is dropped, merged or reordered |
| `ModelStateExtension.GetErrorsContains` | Extensions/ModesStateExtension.cs:10-13 | a message is in the result exactly when some entry recorded it |
| `CategoryViewModels.Validate` | ViewModels/Categories/EditorCategoryViewModel.cs:7-12 | the errors are Name's Required then StringLength messages, then Slug's Required message; valid exactly when the name is non-blank with 3 to 80 characters and the slug is non-blank, with no length limit on the slug |
| `CategoryViewModels.ValidateMessages` | ViewModels/Categories/EditorCategoryViewModel.cs:7-12 | each of the three messages appears exactly when its own constraint fails, and no other message appears |
| `CategoryViewModels.BothMissingReportsBoth` | ViewModels/Categories/EditorCategoryViewModel.cs:7-11 | with both values missing, the errors are the Name and Slug Required messages, in that order |
| `CategoryViewModels.EmptyNameReportsBoth` | ViewModels/Categories/EditorCategoryViewModel.cs:7-8 | an empty name is reported both as missing and as outside 3..80 |
| `LoginViewModels.Validate` | ViewModels/LoginViewModel.cs:7-12 | the errors are Email's Required and format messages, then Password's Required message (entries sorted by key, the shorter "Email" first); valid exactly when both are non-blank and the e-mail passes the format rule, with no other rule on the password |
| `LoginViewModels.ValidateMessages` | ViewModels/LoginViewModel.cs:7-12 | each of the three messages appears exactly when its own constraint fails, and no other message appears |
| `LoginViewModels.BothMissingReportsBoth` | ViewModels/LoginViewModel.cs:7-10 | with both values missing, both Required messages are reported, Email's first |
| `RoleClaimsExtension.RoleClaims` | Extensions/RoleClaimsExtension.cs:18 | one Role claim per role, claim `i` carrying role `i`'s slug |
| `RoleClaimsExtension.GetClaims` | Extensions/RoleClaimsExtension.cs:8-33 | the first claim is (Name, e-mail); with null roles that is the only claim; otherwise there are 1 + number-of-roles claims and claim `i + 1` is (Role, slug of role `i`) |
| `RoleClaimsExtension.ExactlyOneNameClaim` | Extensions/RoleClaimsExtension.cs:10-18 | every claim after the first is a Role claim, so there is exactly one Name claim |
| `RoleClaimsExtension.DuplicateRolesKept` | Extensions/RoleClaimsExtension.cs:17-18 | two roles with the same slug give two equal Role claims: nothing is deduplicated |
| `AccountController.AccountSlug` | Controllers/AccountController.cs:33 | the slug has the e-mail's length; each `@` or `.` becomes `-` and every other character, case included, stays at its position |
| `AccountController.AccountSlugIsSeparatorFree` | Controllers/AccountController.cs:33 | a slug contains no `@` and no `.`, and deriving the slug of a slug gives the slug back |
| `AccountController.FirstByEmail` | Controllers/AccountController.cs:69-73 | the lookup finds a user exactly when one has that e-mail, and then it is the first such user in the table |
| `AccountController.FirstByEmailAppend` | Controllers/AccountController.cs:69-73 | after a user with a new e-mail is appended, looking that e-mail up finds the new user and every other lookup is unchanged |
| `AccountController.FirstByEmailUnique` | Controllers/AccountController.cs:69-73 | when e-mails are unique, every user with the looked-up e-mail is the one found |
| `AccountController.Login` | Controllers/AccountController.cs:62-91 | the answer is 200, 400, 401 or 500, and carries data exactly when it is 200; 400 exactly for an invalid payload, with that payload's `GetErrors`; 401 exactly for a valid payload whose e-mail no user has or whose user's stored hash rejects the password, so a token-service failure after a passed check is 500; every 401 is "Usuário ou senha inválido" and every 500 the internal-error message |
| `AccountController.NewUser` | Controllers/AccountController.cs:29-36 | the new account keeps the given name and e-mail, stores the given hash, has no roles, and its slug is `AccountSlug` of the e-mail: the e-mail's length, with no `@` and no `.` |
| `AccountController.LoginRejectsInvalidPayload` | Controllers/AccountController.cs:66-67 | an invalid payload gets 400 with exactly `GetErrors` of its validation state, whatever the users, verifier and token service |
| `AccountController.LoginFailuresIndistinguishable` | Controllers/AccountController.cs:75-79 | an unknown e-mail and a wrong password against a stored hash give the identical 401 "Usuário ou senha inválido" |
| `AccountController.LoginWithoutHashSkipsVerifier` | Controllers/AccountController.cs:78-90 | for a user with a null hash the verifier does not affect the result, which is the token service's outcome (200 with the token, 500 if it throws) |
| `AccountController.LoginSucceedsIff` | Controllers/AccountController.cs:66-90 | a token is returned exactly when the payload is valid, a user has the e-mail, its hash is null or accepts the password, and the service issues a token; the token returned is the one issued for that user |
| `AccountController.UserStore.Register` | Controllers/AccountController.cs:23-57 | invalid payload: 400 with its errors; other failure: 500; taken e-mail or `DbUpdateException`: 400 "Este E-mail já está cadastrado"; otherwise 200 with the e-mail and generated password and exactly the new user appended; nothing is stored on failure, and e-mails stay unique |
| `AccountController.RegisteredUserCanLogIn` | Controllers/AccountController.cs:29-84 | after a successful registration, logging in with the returned e-mail and password yields the token issued for the new account, given that `Verify` accepts the password its hash was made from |
| `Routing.OnlyRegistrationRequiresToken` | Controllers/AccountController.cs:13-61 | registration is the only route that needs a token; `Login` is the only route marked anonymous |
| `CategoryController.Listing` | Controllers/CategoryController.cs:38-41 | the listing holds every row of the table once, each under its own id, and nothing else, in ascending id order |
| `CategoryController.CategoryStore.List` | Controllers/CategoryController.cs:16-36 | the table stays valid; a live cache entry is returned unchanged whatever the table holds; otherwise a failure gives 500 and an empty slot, and success lists the table and caches it until now + 3600 |
| `CategoryController.CategoryStore.GetById` | Controllers/CategoryController.cs:43-58 | with no failure, 200 with the row exactly when the id is present, else 404 "Categoria não encontrada."; any failure gives 500 |
| `CategoryController.CategoryStore.Create` | Controllers/CategoryController.cs:60-87 | invalid payload: 400 with its errors; failures: 500 with the route's message; otherwise 201 and one new row under an id not in the table before, with the name as given and the slug lower-cased; nothing else changes |
| `CategoryController.CategoryStore.Update` | Controllers/CategoryController.cs:89-119 | invalid payload: 400; absent id: 404; save failure: 500 "Não foi possível atualizar a categoria."; all leave the table unchanged; otherwise only that row changes, to the new name and lower-cased slug under the same id |
| `CategoryController.CategoryStore.Delete` | Controllers/CategoryController.cs:121-144 | absent id: 404; save failure: 500 "Não foi possível excluir a categoria."; both leave the table unchanged; otherwise exactly that key is removed and the removed row returned |
| `CategoryController.CachedListingIsStale` | Controllers/CategoryController.cs:23-27 | a listing taken just before a create and one taken under an hour later are the same response, and that response differs from a listing of the table as it now is |

## Left out

- The token service (issuing, signing and validating tokens, their expiry) is not part of this model. `Login` takes it as a parameter.
- `PasswordHasher` and `PasswordGenerator` live in an outside library. Verification is a parameter; the generated password (25 characters) and its hash are given values, so the hash's per-call randomness is not modelled.
- The e-mail format rule of `[EmailAddress]` belongs to the framework. It is the parameter `isEmail`.
- `ToLower` is culture-sensitive in .NET. The model lower-cases ASCII letters only.
- .NET string lengths count UTF-16 code units. The model counts Dafny characters (Unicode scalar values), so names with characters outside the Basic Multilingual Plane are measured differently.
- `char.IsWhiteSpace` is modelled by its fixed list of characters from the Unicode standard that .NET follows.
- JSON binding errors are not modelled. For category and login payloads the validation state holds only the declared constraints. `RegisterViewModel` is not part of this model, so `Register` takes the validation state as given.
- The e-mail comparison of the login lookup is exact equality. A database collation that ignores case is not modelled.
- The login lookup runs outside the handler's `try`. A database failure there escapes unhandled; the model's lookup cannot fail.
- `Include(x => x.Roles)` is not modelled. A user carries the role association it was stored with; a new account is stored with no roles.
- AccountController.UserStore.Register: the database schema is not part of this model; it is assumed to have a unique index on Email, so saving an account whose e-mail is taken fails with a `DbUpdateException`. The 400 for a taken e-mail under `NoFault`, and the invariant that e-mails stay unique, rest on that assumption.
- Database identity values are a counter. Gaps left by failed inserts are not modelled.
- The `Location` header of the 201 response is not modelled.
- The cache is one slot on a shared store. Races between concurrent requests, eviction under memory pressure, and sharing of the cached entity objects are not modelled.
- The listing query has no `ORDER BY`. The model lists rows in ascending id order.
- The commented-out role-gated routes, the image upload route, `Program.cs` and `Configuration.cs` (service wiring, middleware order, serializer options, global settings) are not part of this model.
