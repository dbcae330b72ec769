# ExpenseTracker API — a Dafny model of its controllers and store

ExpenseTracker is an ASP.NET Core web API. Users register and log in. Login
issues a JSON Web Token. With that token a user creates, reads, updates,
deletes and queries their own expenses.

This project models the two controllers that hold the API's logic:

- **`ExpenseController`** is a per-owner expense store and query engine.
- **`AuthController`** is the user registry and login.

They work over the two tables of `ApplicationDbContext`, whose declared rules
are:

- e-mail addresses are unique;
- every expense has its owner;
- deleting a user cascades to that user's expenses;
- amounts are `decimal(18,2)`.

The model also covers:

- the validation attributes of the request and entity classes;
- the closed `ExpenseCategory` enumeration.

Representations:

- A table is a `map` from primary key to row.
- Amounts are integer cents.
- Instants are `DateTime` ticks. The current instant `now` is a parameter.
- A GUID is its 32 hexadecimal digits.

Modules, one file each:

| module | file | models |
|---|---|---|
| `Basics` | `basics.dfy` | `byte`, optional values, results, API errors |
| `Text` | `text.dfy` | `char.IsWhiteSpace`, `IsNullOrWhiteSpace`, `ToLowerInvariant` |
| `Guids` | `guids.dfy` | `Guid.ToString()` and `Guid.TryParse` |
| `Clock` | `clock.dfy` | ticks, `AddDays`, `AddMinutes`, the `AddMonths` bounds |
| `ExpenseCategories` | `expense_category.dfy` | the enum and its byte codes |
| `Annotations` | `annotations.dfy` | `[Required]`, `[MaxLength]`, `[StringLength]`, `[EmailAddress]` |
| `UserEntity` | `user.dfy` | the `User` entity |
| `ExpenseEntity` | `expense.dfy` | `Expense`, `ExpenseDto` |
| `ExpenseRequests` | `create_expense_request.dfy` | `CreateExpenseRequest` validation |
| `Claims` | `claims.dfy` | claims, `FindFirstValue`, the inbound claim-type map |
| `Passwords` | `passwords.dfy` | the password helper, as a salted digest |
| `AuthModels` | `auth_models.dfy` | `RegisterRequest` validation and the auth records |
| `Database` | `db_context.dfy` | the two tables and their rules (class `ApplicationDbContext`) |
| `ExpenseQueries` | `expense_query.dfy` | the period presets, the `Where` chain, newest-first order |
| `ExpenseControllers` | `expense_controller.dfy` | `GetUserId` and class `ExpenseController` |
| `AuthControllers` | `auth_controller.dfy` | token issuance and class `AuthController` |

How the state changes are modelled:

- **The tables.** `ApplicationDbContext` is a class with two map fields. Its
  `Valid()` invariant holds all the database rules.
- **Writes.** Each write is a method with the same rule as `SaveChangesAsync`.
  A write that would break a rule is refused, and both tables stay as they
  were.
- **The controllers.** They are classes over the context. Create, update,
  delete and register change it in place. Their contracts state the whole new
  table.
- **`GetExpenses`** builds its `Where` chain by reassignment, as the source
  does. It then scans the table in a loop, keeping each row the chain keeps
  and placing it in newest-first position. Its contract says the answer lists
  exactly the selected rows:
  - each row once;
  - as DTOs;
  - in non-increasing `IncurredAtUtc` order.

  The selected rows are the caller's rows that fall inside the period window
  and inside each given bound.
- **Period and range together.** When both a period and a start or end bound
  are given, the code chains further `Where` calls onto the period's query. So
  the answer is the **intersection** of the period window and the range.
  `RangeNarrowsPeriod` and `RangeDoesNotOverride` prove this. The comment at
  `ExpenseController.cs:178` says the range overrides the period; the model
  follows the code.
- **Validation.** `[ApiController]` turns a failed validation into an
  automatic 400 before the action runs. The model makes that check the first
  branch of create, update and register. Create and update check the
  attributes exactly as written (`AnnotationsAccept`), so a category code
  outside 1 to 7 is stored as the raw byte the body held. The stricter check
  that would refuse it (`IsValid`) is modelled beside them, under
  "## Findings".

## Model

| member | source | states |
|---|---|---|
| ExpenseCategories.Code | ExpenseTracker.API/ExpenseTracker.API/Models/Entities/ExpenseCategory.cs:3-11 | every category is stored as a byte from 1 to 7, the code of the category at that position in declaration order |
| ExpenseCategories.FromCode | ExpenseTracker.API/ExpenseTracker.API/Models/Entities/ExpenseCategory.cs:3-11 | a byte names a category exactly when it is 1 to 7, and then that category's code is the byte |
| ExpenseCategories.FromCodeOfCode | ExpenseTracker.API/ExpenseTracker.API/Models/Entities/ExpenseCategory.cs:5-11 | decoding a category's code gives the category back |
| ExpenseCategories.SevenCategoriesInOrder | ExpenseTracker.API/ExpenseTracker.API/Models/Entities/ExpenseCategory.cs:5-11 | there are exactly seven categories, all distinct, with codes 1 to 7 in declaration order |
| ExpenseCategories.NoCategoryHasCodeZero | ExpenseTracker.API/ExpenseTracker.API/Models/Entities/ExpenseCategory.cs:5 | no category is stored as 0, the enum's default value |
| Text.ToLowerInvariant | ExpenseTracker.API/ExpenseTracker.API/Controllers/ExpenseController.cs:154 | lower-casing keeps the length and leaves no upper-case ASCII letter |
| Text.ToLowerKeepsBlank | ExpenseTracker.API/ExpenseTracker.API/Controllers/ExpenseController.cs:149-154 | a string is white space only exactly when its lower-cased form is |
| Text.IsNullOrWhiteSpace | ExpenseTracker.API/ExpenseTracker.API/Controllers/ExpenseController.cs:149 | definition: null, or no character that is not white space; the empty string counts as blank |
| Clock.AddDays | ExpenseTracker.API/ExpenseTracker.API/Controllers/ExpenseController.cs:158 | going back a number of days never moves forward in time |
| Clock.AddMinutes | ExpenseTracker.API/ExpenseTracker.API/Controllers/AuthController.cs:88 | adding a non-negative number of minutes never moves back in time |
| Guids.Format | ExpenseTracker.API/ExpenseTracker.API/Controllers/AuthController.cs:92 | the text of a GUID is a "D" form, already in lower case, so `TryParse` accepts it |
| Guids.TryParse | ExpenseTracker.API/ExpenseTracker.API/Controllers/ExpenseController.cs:29 | succeeds exactly on the "D" form (36 characters, dashes at 8, 13, 18 and 23, a hexadecimal digit of either case elsewhere), and the GUID it reads is the one whose text is the input in lower case |
| Guids.ParseFormat | ExpenseTracker.API/ExpenseTracker.API/Controllers/ExpenseController.cs:29 | parsing the text `Guid.ToString()` writes gives the same GUID back |
| Guids.FormatInjective | ExpenseTracker.API/ExpenseTracker.API/Controllers/AuthController.cs:92 | distinct GUIDs have distinct `sub` claim texts |
| Claims.FindFirstValue | ExpenseTracker.API/ExpenseTracker.API/Controllers/ExpenseController.cs:26-27 | the result is null exactly when no claim has the type (compared ignoring case); otherwise it is the value of the first claim of that type |
| Claims.FindFirstValueAt | ExpenseTracker.API/ExpenseTracker.API/Controllers/ExpenseController.cs:26-27 | when claim i is the first of its type, the lookup returns claim i's value |
| Claims.MapInbound | ExpenseTracker.API/ExpenseTracker.API/Controllers/ExpenseController.cs:25 | definition: the inbound map renames `sub` to `NameIdentifier` and `email` to `ClaimTypes.Email` claim by claim, keeping the number, order and values of the claims |
| Passwords.VerifyPasswordHash | ExpenseTracker.API/ExpenseTracker.API/Controllers/AuthController.cs:69 | definition: the password verifies exactly when its digest under the stored salt is the stored hash |
| Passwords.CreatePasswordHash | ExpenseTracker.API/ExpenseTracker.API/Controllers/AuthController.cs:38 | the returned salt is the drawn one, and the password verifies against the returned hash and salt |
| UserEntity.NewUser | ExpenseTracker.API/ExpenseTracker.API/Controllers/AuthController.cs:40-47 | definition: the initialiser's user, with the given id, name, address, hash and salt, created at `now` and never updated |
| UserEntity.AnnotationsFitColumns | ExpenseTracker.API/ExpenseTracker.API/Models/Entities/User.cs:8-15 | a user that meets its attributes has a non-empty name and address, fitting the 200- and 256-character columns |
| UserEntity.SatisfiesAnnotations | ExpenseTracker.API/ExpenseTracker.API/Models/Entities/User.cs:8-15 | a user that meets its attributes has an address with an '@' that is neither its first nor its last character |
| ExpenseRequests.MissingCategoryPassesAnnotations | ExpenseTracker.API/ExpenseTracker.API/Models/Expenses/CreateExpenseRequest.cs:16-17 | as written, a request whose category is 0 passes every attribute, though 0 names no category |
| ExpenseRequests.ValidRequestNamesCategory | ExpenseTracker.API/ExpenseTracker.API/Models/Expenses/CreateExpenseRequest.cs:16-17 | under the corrected check a valid request's category code is 1 to 7, and storing the category keeps the code |
| ExpenseRequests.AnnotationsAccept | ExpenseTracker.API/ExpenseTracker.API/Models/Expenses/CreateExpenseRequest.cs:8-20 | the attributes as written accept exactly: at least one cent, a three-character currency code not all white space, and a description of at most 500 characters when one is given; nothing about the category |
| ExpenseRequests.IsValid | ExpenseTracker.API/ExpenseTracker.API/Models/Expenses/CreateExpenseRequest.cs:16-17 | definition of the corrected check: the attributes, and a category code from 1 to 7 |
| ExpenseRequests.AnnotationsIgnoreCategoryAndInstant | ExpenseTracker.API/ExpenseTracker.API/Models/Expenses/CreateExpenseRequest.cs:16-23 | changing the category or the instant never changes the verdict of the attributes |
| ExpenseRequests.AcceptedAmountMayNotFitColumn | ExpenseTracker.API/ExpenseTracker.API/Models/Expenses/CreateExpenseRequest.cs:8-9 | an amount too large for the `decimal(18,2)` column passes `[Range(0.01, double.MaxValue)]` |
| ExpenseRequests.ValidationBoundaries | ExpenseTracker.API/ExpenseTracker.API/Models/Expenses/CreateExpenseRequest.cs:8-20 | boundary cases of the attributes as written: 1 cent passes and 0 fails; "123" passes (only the length is checked); "   " and "US" fail; a 500-character description passes and 501 fails; the category codes 0 and 8 pass. The corrected check refuses 0 and 8 and accepts 1 and 7 |
| AuthModels.IsValidRegisterRequest | ExpenseTracker.API/ExpenseTracker.API/Models/Auth/RegisterRequest.cs:7-19 | a valid registration has a name of 1 to 200 characters, an address of 1 to 256 characters with an '@' neither first nor last, and a password of 8 to 64 characters |
| AuthModels.ValidRegistrationMakesValidUser | ExpenseTracker.API/ExpenseTracker.API/Models/Auth/RegisterRequest.cs:5-20 | a user built from a valid registration meets the `User` entity's attributes |
| AuthModels.RegistrationBoundaries | ExpenseTracker.API/ExpenseTracker.API/Models/Auth/RegisterRequest.cs:5-20 | boundary cases: passwords of 7 and 65 characters fail, 8 and 64 pass, eight spaces fail; the address needs exactly one '@' that is neither first nor last; a 201-character name fails |
| Database.ExpensesOf | ExpenseTracker.API/ExpenseTracker.API/ApplicationDbContext.cs:17-20 | definition: the keys of the stored expenses whose owner is that user, the `User.Expenses` collection |
| Database.WithoutOwner | ExpenseTracker.API/ExpenseTracker.API/ApplicationDbContext.cs:21 | the cascade removes exactly the user's expenses and keeps every other row unchanged |
| Database.NewUserOwnsNothing | ExpenseTracker.API/ExpenseTracker.API/Models/Entities/User.cs:24 | a user not yet stored owns no expense, so a new user's collection is empty |
| Database.CascadeKeepsConsistent | ExpenseTracker.API/ExpenseTracker.API/ApplicationDbContext.cs:17-29 | deleting a user with the cascade keeps every database rule, so no expense loses its owner |
| Database.CascadeOfAbsentUser | ExpenseTracker.API/ExpenseTracker.API/ApplicationDbContext.cs:21 | deleting a user who does not exist changes no expense |
| Database.EmailInUse | ExpenseTracker.API/ExpenseTracker.API/Controllers/AuthController.cs:32 | an address is in use exactly when it is one of the stored users' addresses |
| Database.Consistent | ExpenseTracker.API/ExpenseTracker.API/ApplicationDbContext.cs:17-29 | under the rules, distinct users have distinct addresses and every expense's owner is a stored user |
| Database.ApplicationDbContext.Valid | ExpenseTracker.API/ExpenseTracker.API/ApplicationDbContext.cs:17-29 | definition: the store's two tables meet `Consistent` |
| Database.ApplicationDbContext.constructor | ExpenseTracker.API/ExpenseTracker.API/ApplicationDbContext.cs:10-11 | an empty database meets every rule |
| Database.ApplicationDbContext.InsertExpense | ExpenseTracker.API/ExpenseTracker.API/ApplicationDbContext.cs:17-29 | the row is stored exactly when its key is free, its owner exists and its amount fits `decimal(18,2)`; otherwise nothing changes; the rules are kept |
| Database.ApplicationDbContext.SaveExpense | ExpenseTracker.API/ExpenseTracker.API/Controllers/ExpenseController.cs:109 | a changed row replaces the stored one exactly when it is still stored, its owner exists and its amount fits; otherwise nothing changes |
| Database.ApplicationDbContext.RemoveExpense | ExpenseTracker.API/ExpenseTracker.API/Controllers/ExpenseController.cs:129-130 | exactly that key leaves the expense table; users are untouched |
| Database.ApplicationDbContext.InsertUser | ExpenseTracker.API/ExpenseTracker.API/ApplicationDbContext.cs:23-25 | the user is stored exactly when the key is free, no user has the address and the strings fit their columns; otherwise nothing changes |
| Database.ApplicationDbContext.RemoveUser | ExpenseTracker.API/ExpenseTracker.API/ApplicationDbContext.cs:17-21 | the user leaves and the expense table becomes the cascade's result; the rules are kept |
| ExpenseQueries.ParsePeriod | ExpenseTracker.API/ExpenseTracker.API/Controllers/ExpenseController.cs:149-173 | a null or blank period means no window; otherwise the period is accepted exactly when its lower-cased form is one of the six names, and the preset is the one that names it; anything else is the BadRequest with the fixed message |
| ExpenseQueries.PresetNamed | ExpenseTracker.API/ExpenseTracker.API/Controllers/ExpenseController.cs:154-173 | a lower-cased name gives a preset exactly when it is one of the six accepted names, and then one of the two names of that preset |
| ExpenseQueries.ParsePeriodIgnoresCase | ExpenseTracker.API/ExpenseTracker.API/Controllers/ExpenseController.cs:154 | a period and its lower-cased form are treated alike |
| ExpenseQueries.PeriodExamples | ExpenseTracker.API/ExpenseTracker.API/Controllers/ExpenseController.cs:149-173 | "Week", "PastMonth" and "3MONTHS" are accepted; "", "   " mean no window; "year" and " week" are refused |
| ExpenseQueries.PeriodWindow | ExpenseTracker.API/ExpenseTracker.API/Controllers/ExpenseController.cs:151-175 | definition: each preset's window ends at `now` and starts 7 days, one month or three months before |
| ExpenseQueries.PeriodWindowsNest | ExpenseTracker.API/ExpenseTracker.API/Controllers/ExpenseController.cs:156-168 | under Gregorian months every preset starts 7 to 92 days back, and a longer preset starts no later than a shorter one |
| ExpenseQueries.ChainedWhereNarrows | ExpenseTracker.API/ExpenseTracker.API/Controllers/ExpenseController.cs:175-192 | chaining a `Where` keeps exactly the rows the query kept that the new filter also keeps |
| ExpenseQueries.Selected | ExpenseTracker.API/ExpenseTracker.API/Controllers/ExpenseController.cs:144-146 | the selection holds exactly the stored keys whose rows meet the criteria, and every selected row is the caller's |
| ExpenseQueries.SelectionIgnoresOtherOwners | ExpenseTracker.API/ExpenseTracker.API/Controllers/ExpenseController.cs:146 | tenant isolation: two tables that agree on the caller's rows give the caller the same selection |
| ExpenseQueries.RangeNarrowsPeriod | ExpenseTracker.API/ExpenseTracker.API/Controllers/ExpenseController.cs:175-194 | with a period and bounds, the selection is the intersection of the period's selection and the bounds' selection |
| ExpenseQueries.RangeDoesNotOverride | ExpenseTracker.API/ExpenseTracker.API/Controllers/ExpenseController.cs:178-194 | a ten-day-old row lies in the range from 15 to 5 days back but is not selected when the week period is also given |
| ExpenseQueries.FilterExamples | ExpenseTracker.API/ExpenseTracker.Test/AuthAndExpenseIntegrationTests.cs:156-210 | for rows at t0, t0−10d and t0−40d: the week selects one, the month two, three months all three, and the range from −15d to −5d the middle one |
| ExpenseQueries.InsertNewestFirst | ExpenseTracker.API/ExpenseTracker.API/Controllers/ExpenseController.cs:197 | inserting into a newest-first list keeps it newest first and adds exactly the one row |
| ExpenseControllers.GetUserId | ExpenseTracker.API/ExpenseTracker.API/Controllers/ExpenseController.cs:23-35 | a returned id is the parse of some `NameIdentifier` or `sub` claim; with no such claim the caller is refused; every refusal is Unauthorized("Invalid user id claim.") |
| ExpenseControllers.NameIdentifierTakesPrecedence | ExpenseTracker.API/ExpenseTracker.API/Controllers/ExpenseController.cs:26-31 | when a `NameIdentifier` claim exists, the first one alone decides the id or the refusal |
| ExpenseControllers.SubIsTheFallback | ExpenseTracker.API/ExpenseTracker.API/Controllers/ExpenseController.cs:26-31 | without any `NameIdentifier` claim, the first `sub` claim decides |
| ExpenseControllers.EmptyNameIdentifierFailsClosed | ExpenseTracker.API/ExpenseTracker.API/Controllers/ExpenseController.cs:26-31 | an empty `NameIdentifier` claim refuses the caller even when a valid `sub` claim follows |
| ExpenseControllers.MapToExpenseDto | ExpenseTracker.API/ExpenseTracker.API/Controllers/ExpenseController.cs:37-45 | definition: the DTO copies the id, amount, currency, category, description and instant |
| ExpenseControllers.DtoHidesOwnerAndMetadata | ExpenseTracker.API/ExpenseTracker.API/Controllers/ExpenseController.cs:37-45 | the DTO does not depend on the owner or the timestamps of the record, and carries its id and instant |
| ExpenseControllers.NewExpense | ExpenseTracker.API/ExpenseTracker.API/Controllers/ExpenseController.cs:52-63 | the new expense has the fresh id, is owned by the caller, and has the request's amount, currency, category byte (whatever it is) and description; it is incurred at the request's instant or else `now`, created `now` and never updated |
| ExpenseControllers.Updated | ExpenseTracker.API/ExpenseTracker.API/Controllers/ExpenseController.cs:102-107 | the update replaces the five request fields (the category byte as given), with the instant defaulting to `now`, and sets `UpdatedAtUtc` to `now`; the id, owner and `CreatedAtUtc` are kept |
| ExpenseControllers.WritesKeepConsistent | ExpenseTracker.API/ExpenseTracker.API/Controllers/ExpenseController.cs:54-66 | a new expense for a stored caller under a free key, or an update of a stored row, keeps every database rule when the amount fits its column, whatever the category byte |
| ExpenseControllers.CorrectedWritesNameCategory | ExpenseTracker.API/ExpenseTracker.API/Models/Expenses/CreateExpenseRequest.cs:16-17 | under the corrected check, the rows that create and update build name one of the seven categories |
| ExpenseControllers.FindOwned | ExpenseTracker.API/ExpenseTracker.API/Controllers/ExpenseController.cs:77-79 | the owner-and-id filter finds a row exactly when the key is stored and owned by the caller, and then it finds that row |
| ExpenseControllers.ForeignRowLooksAbsent | ExpenseTracker.API/ExpenseTracker.API/Controllers/ExpenseController.cs:77-82 | another user's expense gives the same answer as a missing one |
| ExpenseControllers.DeletedRowIsGone | ExpenseTracker.API/ExpenseTracker.API/Controllers/ExpenseController.cs:120-127 | once a key is removed, the gate finds nothing under it for anyone |
| ExpenseControllers.FiltersMeanCriteria | ExpenseTracker.API/ExpenseTracker.API/Controllers/ExpenseController.cs:144-194 | the chained filters keep exactly the rows the selection criteria select |
| ExpenseControllers.BuildQuery | ExpenseTracker.API/ExpenseTracker.API/Controllers/ExpenseController.cs:144-194 | a period the parser refuses gives its BadRequest; otherwise the query is the owner filter, then the period window, then each given bound |
| ExpenseControllers.RunQuery | ExpenseTracker.API/ExpenseTracker.API/Controllers/ExpenseController.cs:197-201 | the scan lists exactly the selected rows, each once, as DTOs, newest first |
| ExpenseControllers.RangeQuery | ExpenseTracker.API/ExpenseTracker.Test/AuthAndExpenseIntegrationTests.cs:206-210 | over the three test rows, the range from 15 to 5 days back answers exactly the ten-day-old one |
| ExpenseControllers.ExpenseController.constructor | ExpenseTracker.API/ExpenseTracker.API/Controllers/ExpenseController.cs:18-21 | the controller works on the given context |
| ExpenseControllers.ExpenseController.CreateExpense | ExpenseTracker.API/ExpenseTracker.API/Controllers/ExpenseController.cs:47-69 | the attributes as written are checked first and identity second; then exactly one row, the new expense, is added and echoed as a DTO (amount, currency, category byte, fresh id), unless the store refuses it; users are untouched |
| ExpenseControllers.ExpenseController.GetExpenseById | ExpenseTracker.API/ExpenseTracker.API/Controllers/ExpenseController.cs:72-85 | the caller's expense with that id as a DTO, or NotFound when the gate finds none |
| ExpenseControllers.ExpenseController.UpdateExpense | ExpenseTracker.API/ExpenseTracker.API/Controllers/ExpenseController.cs:88-112 | the attributes as written are checked first and identity second; NotFound and no change unless the gate finds the row; otherwise that one row becomes its update and every other row is unchanged |
| ExpenseControllers.ExpenseController.DeleteExpense | ExpenseTracker.API/ExpenseTracker.API/Controllers/ExpenseController.cs:115-133 | exactly the gated row is removed; NotFound and no change otherwise |
| ExpenseControllers.ExpenseController.GetExpenses | ExpenseTracker.API/ExpenseTracker.API/Controllers/ExpenseController.cs:136-204 | identity is checked first, then the period; the answer lists exactly the caller's rows inside the period window and the given bounds, each once, as DTOs, newest first |
| ExpenseControllers.ExpenseController.CreateThenGet | ExpenseTracker.API/ExpenseTracker.Test/AuthAndExpenseIntegrationTests.cs:114-124 | creating and then reading back gives the created DTO, which is the DTO of the new expense, echoing amount and currency |
| ExpenseControllers.ExpenseController.CreateWithoutCategory | ExpenseTracker.API/ExpenseTracker.API/Controllers/ExpenseController.cs:54-68 | as written, a body without a category is stored with code 0, which names no category, and the create answers success with that code |
| ExpenseControllers.ExpenseController.UpdateThenGet | ExpenseTracker.API/ExpenseTracker.Test/AuthAndExpenseIntegrationTests.cs:127-140 | updating the caller's row and reading it back gives the DTO of the updated row, with the request's amount, currency, category, description and instant (or `now`) |
| ExpenseControllers.ExpenseController.DeleteThenGetThenDelete | ExpenseTracker.API/ExpenseTracker.Test/AuthAndExpenseIntegrationTests.cs:142-147 | after a delete, a read and a second delete both answer NotFound |
| AuthControllers.UserDtoHidesSecrets | ExpenseTracker.API/ExpenseTracker.API/Controllers/AuthController.cs:77-82 | the public view carries id, name and address, and does not depend on the hash, the salt or the timestamps |
| AuthControllers.MapToUserDto | ExpenseTracker.API/ExpenseTracker.API/Controllers/AuthController.cs:77-82 | definition: the public view copies the id, full name and address |
| AuthControllers.GenerateJwtToken | ExpenseTracker.API/ExpenseTracker.API/Controllers/AuthController.cs:84-114 | exactly three claims (`sub` = the id's text, `email`, `fullName`), the configured issuer and audience, and expiry at `now` plus the configured minutes in both the token and the response |
| AuthControllers.IssuedTokenIdentifiesUser | ExpenseTracker.API/ExpenseTracker.API/Controllers/AuthController.cs:90-95 | `GetUserId` reads the user's own id back from an issued token, with or without the inbound claim map |
| AuthControllers.EmailCheckIsCaseSensitive | ExpenseTracker.API/ExpenseTracker.API/Controllers/AuthController.cs:32 | the in-use check is exact: an address differing only in letter case is not in use |
| AuthControllers.AuthController.constructor | ExpenseTracker.API/ExpenseTracker.API/Controllers/AuthController.cs:22-26 | the controller works on the given context, settings and password helper |
| AuthControllers.AuthController.Register | ExpenseTracker.API/ExpenseTracker.API/Controllers/AuthController.cs:30-59 | an invalid request or an address already in use (exact comparison) is refused with nothing changed; otherwise exactly one user is added under the fresh id, with the request's name and address and the helper's hash and salt; the response shows only id, name and address |
| AuthControllers.AuthController.Login | ExpenseTracker.API/ExpenseTracker.API/Controllers/AuthController.cs:63-74 | the answer succeeds exactly when a user with that address has a password that verifies, and then it is that user's token; every failure is the same Unauthorized("Invalid credentials.") |
| AuthControllers.AuthController.RegisterThenLogin | ExpenseTracker.API/ExpenseTracker.Test/AuthAndExpenseIntegrationTests.cs:31-62 | registering and then logging in with the same address and password succeeds, and the token names the new user |

## Left out

- Guids.TryParse: only the "D" form (`xxxxxxxx-xxxx-xxxx-xxxx-xxxxxxxxxxxx`, either letter case) is accepted. The .NET parser also accepts the "N", "B", "P" and "X" forms and surrounding white space. Tokens issued here always carry the "D" form.
- Text.ToLowerInvariant: only the ASCII letters are lower-cased. The invariant culture also maps non-ASCII letters, some of them to ASCII: U+212A KELVIN SIGN becomes 'k'. So the source accepts a period such as "WEE" followed by U+212A as `week`, and `ParsePeriod` refuses it.
- Claims.SameType: claim types are compared ignoring ASCII case only.
- String lengths count Unicode scalar values. .NET counts UTF-16 code units, so the two differ for characters outside the Basic Multilingual Plane.
- `ToUniversalTime` and time zones: instants are taken as UTC ticks already.
- `DateTime` range overflow in `AddDays`, `AddMinutes` and `AddMonths` is not modelled.
- `AddMonths` is a function parameter. Only the example lemmas assume Gregorian bounds for it.
- `DateTime.UtcNow`: one `now` per request serves every read of the clock in that request, including the entity initialisers.
- `double.Parse` of `ExpiresMinutes` is left out: the setting is a whole number of minutes.
- JWT signing, the key, serialisation to a string, the `exp` rounding to seconds, and token validation on inbound requests (`[Authorize]`) are left out. So is the "non-empty token string" of the login test. A token is its issuer, audience, claims and expiry.
- Program.cs is not part of this model. Whether the inbound claim map is on is a question of configuration, so both cases are proved.
- `PasswordHelper` is not part of this model. It is a salted digest passed in as a function, and the salt is a parameter of `Register`. The model does not assume collision resistance: another password could verify against a stored hash.
- HTTP status codes are left out. An `UnauthorizedAccessException` from `GetUserId` is an ASP.NET 500 unless a handler maps it; the model returns `Unauthorized`.
- Concurrency is left out. Two registers racing on one address are not modelled: `Register` checks the address and inserts on the same state, so its only `StoreRejected` is a key collision.
- Database.UniqueEmails: e-mail comparison is ordinal, in the unique index, in the in-use check of `Register` and in the lookup of `Login`. Under a case-insensitive collation, such as SQL Server's default, all three queries run in the database and compare ignoring case, so `Register` answers "Email already in use." for an address differing only in letter case before the index is reached, and `Login` finds that user.
- A category number outside 0 to 255 in the body fails deserialisation into the byte enum before validation runs. The request holds a byte, so such a body is not modelled.
- `decimal` amounts with more than two fractional digits are left out. The column would round them; the model takes amounts as integer cents.
- LoginRequest.cs is not part of this model. Login uses its address and password as given.
- Rows with equal `IncurredAtUtc` have no order fixed by the query. The model fixes one; `ListsExactly` only requires non-increasing order.
- The three preset counts of the filter test are proved on the selection (`FilterExamples`), not through a `GetExpenses` call. `GetExpenses` lists exactly the selection, so the list sizes are the same.
- `AsNoTracking`, `ToListAsync` and the other async plumbing of EF Core are left out.

## Findings

| source | as written | input that shows it | evidently intended | confidence | as-written member | corrected member |
|---|---|---|---|---|---|---|
| ExpenseTracker.API/ExpenseTracker.API/Models/Expenses/CreateExpenseRequest.cs:16-17 | `[Required]` on the non-nullable enum `Category` can never fail, so a body without a category (read as 0), or with 8, passes validation. The create and update actions then store the row with a value that names no category and answer success. The controllers here follow the code as written. | `CreateExpenseRequest(1000, "USD", 0, None, None)`: a body of `{"amount":10,"currencyCode":"USD"}` | only the codes 1 to 7 of the seven categories are accepted (`IsValid`), so every stored row names a category | not executed | ExpenseControllers.ExpenseController.CreateWithoutCategory | ExpenseControllers.CorrectedWritesNameCategory |
