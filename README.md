# User management core, modelled in Dafny

This project models the core of a NestJS user-management service built with domain-driven
design and CQRS. That core covers:

- the `User` aggregate and its value objects: `PersonName`, `Email`, `PhoneNumber` and `Password`;
- the aggregate-root and domain-event base classes and the five user events;
- the `Result` type and the `DomainError` taxonomy;
- the mapping between a user and its `users` table row, and the mapping to the read DTO;
- the shared command-handler tail (commit, then dispatch the events) and the create-user,
  change-password and delete-user command handlers;
- the three user query handlers, the paginated query and the `Paginated` page;
- the HTTP edge: the base controller's `Result`-to-exception mapping, the global exception
  filter, and the trim pipe.

A JavaScript `throw` becomes a value (`Throwing.Try` / `Throwing.Outcome`). Entities that the
source updates in place are classes:

- the aggregate root, which holds the user's properties and the pending events;
- the repository, which holds the committed table and the staged changes;
- the unit of work;
- the event dispatcher;
- the command handlers with their remembered aggregate.

Value objects, events, DTOs, errors and HTTP payloads are datatypes. The fresh uuid, the clock
and the event id are inputs of the operations that read them. bcrypt is replaced by a
deterministic stand-in (`Hashing`). The stand-in's hash is never the raw password, and its
comparison accepts exactly the original password. Real bcrypt reads only the first 72 UTF-8
bytes of a password, so that second fact holds of the stand-in only (see "## Left out").

The database is a map from id to row. `save` and `delete` stage changes, and a commit applies
them in one step or fails as a whole when the email column's unique constraint would break.
A plain lookup does not load the lazy `password` column; the lookups "for authentication" do.

## Model

| member | source | states |
|---|---|---|
| Results.Result.Value | src/shared/application/Result.ts:15-20 | the value getter returns exactly on a success; on a failure it throws the fixed Error message |
| Results.Result.Error | src/shared/application/Result.ts:22-27 | the error getter returns exactly on a failure; on a success it throws the fixed Error message |
| Results.FactoriesRoundTrip | src/shared/application/Result.ts:7-37 | exactly one of isSuccess/isFailure holds, and each getter gives back what its factory stored |
| DomainErrors.FactoriesTagTheirKind | src/shared/domain/domain-error.ts:23-49 | each named factory tags its own kind and keeps the message verbatim; only `validation` attaches the list of messages |
| Entities.EqualsIsIdEquality | src/shared/domain/entity.ts:12-26 | `equals` is true exactly for an entity with the same id; null, undefined and non-entities are never equal |
| Entities.EqualsSymmetric | src/shared/domain/entity.ts:12-26 | `a.equals(b)` and `b.equals(a)` agree |
| Entities.EqualsTransitive | src/shared/domain/entity.ts:12-26 | entity equality is transitive |
| Aggregates.AggregateRoot.constructor | src/shared/domain/aggregate-root.ts:9-16 | a new aggregate holds the given id and props and has no pending events |
| Aggregates.AggregateRoot.PopDomainEvents | src/shared/domain/aggregate-root.ts:22-26 | returns the pending events in the order they were raised and leaves none |
| Aggregates.AggregateRoot.ClearEvents | src/shared/domain/aggregate-root.ts:28-30 | leaves no pending events |
| Aggregates.AggregateRoot.AddDomainEvent | src/shared/domain/aggregate-root.ts:32-37 | a missing event throws the fixed Error and changes nothing; otherwise the event is appended |
| Aggregates.RaiseThenPopTwice | src/shared/domain/aggregate-root.ts:22-37 | events raised between pops are handed out once, in order, and a second pop returns nothing |
| DomainEvents.NewDomainEvent | src/shared/domain/domain-event.ts:10-21 | the event keeps its aggregate id, payload and version (1 by default); its type is `<aggregateType>.<class name>` |
| DomainEvents.EventTypeDeterminesParts | src/shared/domain/domain-event.ts:10-12 | for dot-free aggregate types, two events have the same type exactly when both the aggregate type and the class name are equal |
| UserEvents.UserCreatedEvent | src/user/domain/events/index.ts:12-20 | aggregate type `User`, class `UserCreatedEvent`, version 1, the aggregate id and the email/name/surname payload |
| UserEvents.UserUpdatedEvent | src/user/domain/events/index.ts:28-36 | aggregate type `User`, class `UserUpdatedEvent`, version 1, the aggregate id and the profile payload |
| UserEvents.UserPasswordChangedEvent | src/user/domain/events/index.ts:44-52 | aggregate type `User`, class `UserPasswordChangedEvent`, version 1, the aggregate id and the profile payload |
| UserEvents.UserBlockedEvent | src/user/domain/events/index.ts:60-68 | aggregate type `User`, class `UserBlockedEvent`, version 1, the aggregate id and the profile payload |
| UserEvents.UserActivatedEvent | src/user/domain/events/index.ts:77-85 | aggregate type `User`, class `UserActivatedEvent`, version 1, and a payload that also carries the previous status |
| UserEvents.EventTypesDistinct | src/user/domain/events/index.ts:4-85 | the five user events have pairwise different event types |
| Hashing.Hash | src/shared/utils/hashPassword.ts:3-6 | the stand-in's hash starts with the `$2b$12$` identifier of cost 12; its length (identifier plus raw password) describes the stand-in, not bcrypt's 60-character output |
| Hashing.HashInjective | src/shared/utils/hashPassword.ts:3-6 | different passwords have different hashes |
| Passwords.FromHash | src/user/domain/value-objects/password.vo.ts:13-18 | an empty hash throws BadRequest "Password hash cannot be empty."; any other hash is kept as given |
| Passwords.Create | src/user/domain/value-objects/password.vo.ts:20-33 | succeeds exactly for 8 to 50 characters; empty throws the empty message, other lengths throw the length message; the stored hash is not the raw password and compares true against it |
| Passwords.CompareAcceptsOnlyOriginal | src/user/domain/value-objects/password.vo.ts:35-37 | a created password compares true against its raw password and against no other string |
| Passwords.FromHashOfCreated | src/user/domain/value-objects/password.vo.ts:13-33 | reloading a created password from its stored hash gives the same password |
| PersonNames.Create | src/user/domain/value-objects/person-name.vo.ts:11-28 | succeeds exactly when the trimmed input has 3 to 50 characters and keeps the trimmed value; null throws "<field> cannot be empty.", a bad length throws "<field> must be between 3 and 50 characters." |
| PersonNames.CreateOwnValue | src/user/domain/value-objects/person-name.vo.ts:19-27 | a valid name is recreated unchanged from its own value |
| PersonNames.CreateIdempotent | src/user/domain/value-objects/person-name.vo.ts:19-27 | creating again from a created name's value gives the same name |
| Emails.Create | src/user/domain/value-objects/email.vo.ts:11-24 | null throws "Email cannot be empty."; otherwise the trimmed, lower-cased input is kept exactly when it has the address shape, and "Invalid email format." is thrown when it does not |
| Emails.EmailFormatMatchesPattern | src/user/domain/value-objects/email.vo.ts:17 | the direct format test accepts exactly the strings `local@host.top` with non-empty parts free of `@` and whitespace, which is the language of the regular expression |
| Emails.CreateMatchesPattern | src/user/domain/value-objects/email.vo.ts:16-21 | an input is accepted exactly when its normalised form is in the language of the regular expression |
| Emails.CreateOwnValue | src/user/domain/value-objects/email.vo.ts:16-23 | a valid email is recreated unchanged from its own value |
| Emails.CreateIdempotent | src/user/domain/value-objects/email.vo.ts:16-23 | creating again from a created email's value gives the same email |
| Emails.EqualsComparesNormalized | src/user/domain/value-objects/email.vo.ts:30-32 | two created emails are equal exactly when their inputs normalise to the same string |
| Emails.NormalizeIdempotent | src/user/domain/value-objects/email.vo.ts:16 | trimming and lower-casing twice is doing it once |
| Emails.CreateIgnoresPaddingAndCase | src/user/domain/value-objects/email.vo.ts:16-23 | an input and its normalised form give the same result |
| PhoneNumbers.Create | src/user/domain/value-objects/phone-number.vo.ts:11-25 | null throws the empty message; the untrimmed input is kept exactly when it has the `+994` and nine digits format, otherwise the format message is thrown |
| PhoneNumbers.PhoneFormatMatchesPattern | src/user/domain/value-objects/phone-number.vo.ts:16 | the positional format test accepts exactly `+994` followed by nine digits |
| PhoneNumbers.CreateMatchesPattern | src/user/domain/value-objects/phone-number.vo.ts:16-22 | an input is accepted exactly when it matches `^\+994\d{9}$` |
| PhoneNumbers.PaddedNumberRejected | src/user/domain/value-objects/phone-number.vo.ts:16-22 | a number with leading whitespace is rejected with the format message, since nothing is trimmed |
| Text.Trim | src/user/domain/value-objects/person-name.vo.ts:19 | the result has no whitespace at either end and is no longer than the input |
| Text.TrimIsTrimmedAt | src/user/domain/value-objects/person-name.vo.ts:19 | the result is the infix at the front offset, with only whitespace before and after it |
| Text.TrimRemovesOnlyWhitespace | src/user/domain/value-objects/person-name.vo.ts:19 | `trim` drops only whitespace: the result is an infix of the input with whitespace around it |
| Text.TrimKeepsTrimmed | src/shared/application/pipes/trim.pipe.ts:17 | a string without whitespace at its ends is left unchanged |
| Text.TrimIdempotent | src/shared/application/pipes/trim.pipe.ts:17 | trimming twice is trimming once |
| Text.ToLower | src/user/domain/value-objects/email.vo.ts:16 | same length, and each character is lower-cased |
| Text.ToLowerIsLower | src/user/domain/value-objects/email.vo.ts:16 | the result is lower case, and a lower-case string is unchanged |
| Text.ToLowerKeepsTrimmed | src/user/domain/value-objects/email.vo.ts:16 | lower-casing a trimmed string keeps it trimmed |
| Users.CreatePropsSpec | src/user/domain/user.model.ts:33-58 | creation succeeds exactly when every value object accepts its input and the password is empty or valid; the user is active, valid and stamped with the given id and time, holds the normalised values, and has no password exactly when none was given; the error reported is that of the first failing factory, in the order name, surname, email, phone |
| Users.CreatedPropsValid | src/user/domain/user.model.ts:40-58 | created properties satisfy every value object's invariant |
| Users.CreateReportsFirstError | src/user/domain/user.model.ts:40-46 | when everything but the password is valid, the password's error is the one reported |
| Users.PasswordChange | src/user/domain/user.model.ts:104-134 | the change succeeds exactly for an active user with a password, a different new password and the right old one; each guard throws its own BadRequest message, in source order; when all four guards pass, an error of `Password.create` on the new password is the error thrown; the new hash compares true against the new password and false against the old one |
| Users.OnlyCurrentPasswordAuthorises | src/user/domain/user.model.ts:126-132 | only the password the stored hash was made from authorises a change |
| Users.ApplyProfileUpdate | src/user/domain/user.model.ts:181-189 | name, surname and phone are replaced in that order; a failing factory stops the update and its error is the one thrown: a rejected name changes nothing, a rejected surname keeps the new name and the old surname, a rejected phone keeps both new names and the old phone; the timestamp moves only on success; email, status and password never change; validity is kept |
| Users.RejectedSurnameKeepsNewName | src/user/domain/user.model.ts:186-187 | a rejected surname leaves the new name in place and reports the surname error |
| Users.User.Reconstitute | src/user/domain/user.model.ts:73-75 | the rebuilt user has the given id and props and no pending event |
| Users.User.Create | src/user/domain/user.model.ts:33-71 | the user exists exactly when its properties can be built; it then holds them and exactly one UserCreatedEvent; otherwise the first error is thrown |
| Users.User.GetPasswordHash | src/user/domain/user.model.ts:89-93 | the hash is absent exactly for a user without a password, and a valid user's hash is non-empty |
| Users.User.ChangePassword | src/user/domain/user.model.ts:104-144 | on success the new hash and time are stored and one UserPasswordChangedEvent is appended; on an error nothing changes; validity is kept |
| Users.User.Ban | src/user/domain/user.model.ts:146-160 | an active user becomes banned, is stamped and gets one UserBlockedEvent; a banned user is left alone |
| Users.User.Activate | src/user/domain/user.model.ts:162-179 | a banned user becomes active, is stamped and gets one UserActivatedEvent carrying the previous status; an active user is left alone |
| Users.User.UpdateProfile | src/user/domain/user.model.ts:181-198 | the state reached is the profile update's; the UserUpdatedEvent is appended only when the whole update succeeds |
| Users.BanTwice | src/user/domain/user.model.ts:146-149 | banning twice raises one event, and the second call changes nothing |
| UserMapper.RowOf | src/user/infrastructure/persistence/mikro-orm/mappers/user.mapper.ts:13-30 | each column holds the matching prop: id, timestamps, status, the four value-object strings, and the hash string exactly when the user has a password |
| UserMapper.ToPersistence | src/user/infrastructure/persistence/mikro-orm/mappers/user.mapper.ts:13-30 | each column equals the matching getter of the user: id, name, surname, email, phone, password hash, status and timestamps |
| UserMapper.ToPersistenceRoundTrip | src/user/infrastructure/persistence/mikro-orm/mappers/user.mapper.ts:13-49 | rebuilding the row that `toPersistence` writes for a valid user gives back that user's props |
| UserMapper.StoredPassword | src/user/infrastructure/persistence/mikro-orm/mappers/user.mapper.ts:37-39 | a missing or empty column means no password; any other hash is wrapped as it is |
| UserMapper.DomainPropsOfSpec | src/user/infrastructure/persistence/mikro-orm/mappers/user.mapper.ts:32-49 | a row is rebuilt exactly when the name, surname, email and phone factories accept its values; otherwise the error of the first rejecting factory, in that order, is thrown; a rebuilt user has valid value objects, the row's id, status and timestamps, and the normalised stored strings |
| UserMapper.RoundTrip | src/user/infrastructure/persistence/mikro-orm/mappers/user.mapper.ts:13-49 | storing a valid user and loading the row back gives the same properties |
| UserMapper.ToDomain | src/user/infrastructure/persistence/mikro-orm/mappers/user.mapper.ts:32-49 | the user is rebuilt exactly when the row's values are accepted, with no pending event; otherwise the value object's error is thrown |
| UserDtos.DtoAgreesWithRow | src/user/application/mappers/user-dto.mapper.ts:5-17 | for a valid user, the DTO shows exactly what the stored row holds, the password hash included |
| UserDtos.ToDto | src/user/application/mappers/user-dto.mapper.ts:5-17 | each field equals the matching getter of the user; an empty password hash becomes undefined, so for a valid user the hash field is the user's hash |
| UserDtos.ToDtoList | src/user/application/mappers/user-dto.mapper.ts:19-21 | one DTO per user, in order |
| CommandHandling.EventDispatcher.DispatchEvents | src/shared/application/command-handler.base.ts:32 | the batch is handed on as one unit, after those handed before |
| CommandHandling.Complete | src/shared/application/command-handler.base.ts:21-36 | a failure is returned with nothing committed or dispatched; a success commits once; a failed commit propagates and dispatches nothing; otherwise the aggregate's pending events are popped and dispatched as one batch |
| CreateUserHandling.CreateUserCommandHandler.ExecuteAsync | src/user/application/commands/handlers/create-user.handler.ts:31-54 | a taken email stages nothing and returns a Conflict failure unless the stored row with that email cannot be rebuilt, whose error is then thrown (with unique emails, it throws exactly when that row cannot be rebuilt); otherwise a failing factory throws, and a created user is staged and its id returned |
| CreateUserHandling.CreateUserCommandHandler.CreateAndStage | src/user/application/commands/handlers/create-user.handler.ts:41-53 | the created user is staged and remembered; a factory error stages nothing |
| CreateUserHandling.CreateUserCommandHandler.GetAggregateRoot | src/user/application/commands/handlers/create-user.handler.ts:56-58 | there is an aggregate exactly when a user was created |
| CreateUserHandling.CreateUserCommandHandler.Execute | src/user/application/commands/handlers/create-user.handler.ts:31-58 | a taken email commits and dispatches nothing and returns the Conflict failure, or throws the rebuild error of the stored row exactly as `executeAsync` does; invalid input for a new email throws the factory error and commits and dispatches nothing; valid input commits once, writes the row and dispatches one UserCreatedEvent; a commit that breaks the unique email throws and dispatches nothing |
| CreateUserHandling.NormalisedDuplicateFailsAtCommit | src/user/application/commands/handlers/create-user.handler.ts:34-49 | a user whose stored email equals an existing row's email cannot be committed |
| CreateUserHandling.NewUserCommits | src/user/application/commands/handlers/create-user.handler.ts:41-53 | with nothing else staged, a new user whose id is new and whose email no stored row holds is committed under its id |
| CreateUserHandling.RawEmailMissesNormalisedRows | src/user/application/commands/handlers/create-user.handler.ts:34-39 | an email that is not already normalised never finds a stored user, since stored emails are normalised |
| DeleteUserHandling.DeleteUserCommandHandler.ExecuteAsync | src/user/application/commands/handlers/delete-user.handler.ts:31-48 | an unknown id is a NotFound failure; a loaded user's removal is staged and the user is remembered |
| DeleteUserHandling.DeleteUserCommandHandler.GetAggregateRoot | src/user/application/commands/handlers/delete-user.handler.ts:50-52 | there is an aggregate exactly when a user was found |
| DeleteUserHandling.DeleteUserCommandHandler.Execute | src/user/application/commands/handlers/delete-user.handler.ts:31-52 | an unknown id changes nothing; a stored row that cannot be rebuilt throws its error and commits and dispatches nothing; otherwise the unit of work commits once, and a committed deletion removes the row and dispatches one empty batch, while a failed commit throws and dispatches nothing |
| DeleteUserHandling.DeleteRemovesOnlyThatRow | src/user/application/commands/handlers/delete-user.handler.ts:43 | with nothing else staged, a deletion removes exactly that row |
| ChangePasswordHandling.ChangePasswordCommandHandler.ExecuteAsync | src/user/application/commands/handlers/change-password.handler.ts:31-50 | an unknown id is a NotFound failure; otherwise the user loaded with its password changes it, and the changed row is staged |
| ChangePasswordHandling.ChangedRowCommits | src/user/application/commands/handlers/change-password.handler.ts:43-49 | with nothing else staged, the changed row of a stored user whose email is normalised commits and replaces that user's row |
| ChangePasswordHandling.ChangePasswordCommandHandler.ChangeAndStage | src/user/application/commands/handlers/change-password.handler.ts:43-49 | a rejected change throws and changes nothing; an accepted one updates the props, stages the new row and remembers the user |
| ChangePasswordHandling.ChangePasswordCommandHandler.GetAggregateRoot | src/user/application/commands/handlers/change-password.handler.ts:52-54 | there is an aggregate exactly when a password was changed |
| ChangePasswordHandling.ChangePasswordCommandHandler.Execute | src/user/application/commands/handlers/change-password.handler.ts:31-54 | an unknown id, a stored row that cannot be rebuilt, or a rejected change leaves the table, the commit count and the dispatched batches as they were; an accepted change commits once; a committed change writes the new row and dispatches one UserPasswordChangedEvent, while a failed commit throws and dispatches nothing |
| Pagination.CeilDivIsCeiling | src/shared/application/Paginated.ts:20 | the page count holds every item, and one page fewer would not |
| Pagination.NewPaginated | src/shared/application/Paginated.ts:15-21 | the props are kept; with a positive limit the page count is the ceiling of items over limit |
| Pagination.PagesStartInside | src/shared/application/Paginated.ts:20 | every page up to the last one starts at an existing item |
| Pagination.PageViolations | src/shared/application/queries/paginated.query.ts:33-37 | each page message appears exactly when its constraint fails (not whole; below 1), and no other message appears |
| Pagination.LimitViolations | src/shared/application/queries/paginated.query.ts:38-43 | each limit message appears exactly when its constraint fails (not whole; below 1; above 100), and no other message appears |
| Pagination.NewPaginatedQuery | src/shared/application/queries/paginated.query.ts:9-29 | missing values default to page 1 and limit 12; the query is built exactly when both are valid; otherwise a Validation error "PaginatedQuery is not valid." is thrown whose list holds, in some order, exactly the page and limit violation messages |
| Pagination.DefaultsAreValid | src/shared/application/queries/paginated.query.ts:10-11 | a query with neither value asks for page 1 of 12 items |
| Pagination.PageZeroRejected | src/shared/application/queries/paginated.query.ts:16-37 | a page of 0 is rejected with exactly the minimum message |
| UserRepositories.Committed | src/shared/infrastructure/persistence/mikro-orm/mikro-orm.unit-of-work.ts:9-11 | a committed table has unique emails and keeps every row under its own id |
| UserRepositories.CommitSingleRow | src/shared/infrastructure/persistence/mikro-orm/mikro-orm.unit-of-work.ts:9-11 | writing one row whose email no other stored row holds commits, and stores the row under its id |
| UserRepositories.UserRepository.Load | src/user/infrastructure/persistence/mikro-orm/repositories/user.repository.impl.ts:24 | a row is rebuilt into a fresh user without events, or the value objects' error is thrown |
| UserRepositories.UserRepository.FindById | src/user/infrastructure/persistence/mikro-orm/repositories/user.repository.impl.ts:22-25 | an unknown id gives null; otherwise the row, read without its password, is rebuilt or its error thrown |
| UserRepositories.UserRepository.FindByIdForAuthentication | src/user/infrastructure/persistence/mikro-orm/repositories/user.repository.impl.ts:44-55 | an unknown id gives null; otherwise the full row, password included, is rebuilt or its error thrown |
| UserRepositories.UserRepository.FindByEmail | src/user/infrastructure/persistence/mikro-orm/repositories/user.repository.impl.ts:27-30 | null when no stored email equals the given one, and never null when one does; a found user is a row with that email, rebuilt without its password; a thrown error is the rebuild error of a row with that email, and with unique emails it throws exactly when that row cannot be rebuilt |
| UserRepositories.UserRepository.Save | src/user/infrastructure/persistence/mikro-orm/repositories/user.repository.impl.ts:62-74 | the user's row is staged after the earlier changes, and nothing is written yet |
| UserRepositories.UserRepository.Delete | src/user/application/repositories/user.repository.ts:25 | the removal of the user's row is staged after the earlier changes |
| UserRepositories.UserRepository.FindAllPaginated | src/user/infrastructure/persistence/mikro-orm/repositories/user.repository.impl.ts:76-110 | the page holds the rows at offset (page - 1) * limit, rebuilt in order without passwords, with the total and page count of all matches; a throw is the rebuild error of the first row of the page that cannot be rebuilt |
| UserRepositories.LoadAll | src/user/infrastructure/persistence/mikro-orm/repositories/user.repository.impl.ts:102 | every id's row is rebuilt in order; a throw is the rebuild error of the first id whose row cannot be rebuilt, every earlier row having been rebuilt |
| UserRepositories.LoadNext | src/user/infrastructure/persistence/mikro-orm/repositories/user.repository.impl.ts:102 | one more row is rebuilt and appended, keeping the loaded prefix; a throw is that row's own rebuild error, and every earlier row was rebuilt |
| UserRepositories.PageIds | src/user/infrastructure/persistence/mikro-orm/repositories/user.repository.impl.ts:96-100 | at most `limit` ids, all of them matches |
| UserRepositories.UnitOfWork.CommitChanges | src/shared/infrastructure/persistence/mikro-orm/mikro-orm.unit-of-work.ts:9-11 | the staged changes are written together, or none is and the infrastructure error propagates; the table's invariants are kept |
| UserQueries.LazyReadHidesPassword | src/user/infrastructure/persistence/mikro-orm/entities/user.entity.ts:32-33 | a user read without the lazy column has a DTO without a password hash |
| UserQueries.GetUserByIdHandler.Execute | src/user/application/queries/handlers/get-user-by-id.handler.ts:19-28 | null for an unknown id; otherwise the DTO of the stored row, without a password hash |
| UserQueries.GetUserByEmailHandler.Execute | src/user/application/queries/handlers/get-user-by-email.handler.ts:19-28 | null when no stored email equals the given one, and never null when one does; a DTO found is exactly the DTO of a row with that email read without its password, so it shows the normalised email and no password hash; a thrown error is the rebuild error of a row with that email, and with unique emails it throws exactly when that row cannot be rebuilt |
| UserQueries.GetAllUsersHandler.Execute | src/user/application/queries/handlers/get-all-users.handler.ts:20-29 | the page's DTOs are the page's rows in order, without password hashes, and the totals are carried over; a throw is the rebuild error of the first row of the page that cannot be rebuilt |
| UserQueries.PageDtos | src/user/application/queries/handlers/get-all-users.handler.ts:23 | the DTOs of loaded users are those of the rows under the page's ids, none with a password hash |
| Presentation.Raise | src/shared/application/presentation/base.controller.ts:24-36 | a built-in exception carries its class's status; a non-empty text becomes the message with the class description as `error`; an object is the payload |
| Presentation.HandleError | src/shared/application/presentation/base.controller.ts:21-38 | Conflict, NotFound and BadRequest raise their own exception with the message; Validation raises BadRequest carrying the message and the list; every other kind raises InternalServerError |
| Presentation.HandleResult | src/shared/application/presentation/base.controller.ts:14-19 | a success returns its value, and a failure raises what `handleError` builds |
| Presentation.HandleErrorClassifies | src/shared/application/presentation/base.controller.ts:21-38 | the status is 500 exactly for Unexpected, Forbidden, Unauthorized and TooManyRequests, and 4xx otherwise; only a validation error keeps its list |
| ExceptionFilter.CaughtOf | src/shared/application/filters/global-exception.filter.ts:36 | a thrown DomainError reaches the filter as one; anything else thrown inside the application does not |
| ExceptionFilter.DomainStatus | src/shared/application/filters/global-exception.filter.ts:45-70 | every domain kind maps to a 4xx or 5xx status, and to a 5xx status exactly for Unexpected |
| ExceptionFilter.DomainStatusInjective | src/shared/application/filters/global-exception.filter.ts:45-70 | no two error kinds share a status |
| ExceptionFilter.MessagesOf | src/shared/application/filters/global-exception.filter.ts:86-88 | a message array is the list; a single message is wrapped |
| ExceptionFilter.CaptionOf | src/shared/application/filters/global-exception.filter.ts:85 | a missing or empty `error` gives "An error occurred"; otherwise the caption itself |
| ExceptionFilter.Classify | src/shared/application/filters/global-exception.filter.ts:36-99 | a DomainError gives its kind's status, its message and its list (else the message alone); an HttpException gives its own status, with a text payload as message and list, or the caption and the messages of an object payload; anything else gives 500 and the fixed apology |
| ExceptionFilter.Catch | src/shared/application/filters/global-exception.filter.ts:27-110 | the status sent equals the body's status, and the body carries the classification, the request path and the timestamp |
| ExceptionFilter.ErrorsNonEmpty | src/shared/application/filters/global-exception.filter.ts:42-88 | the list of messages is empty only when the exception itself carried an empty list |
| ExceptionFilter.NonDomainThrownIsInternal | src/shared/application/filters/global-exception.filter.ts:90-99 | anything thrown that is not a DomainError, a failed commit included, is answered with 500 and the fixed apology |
| ExceptionFilter.ControllerAndFilterAgree | src/shared/application/presentation/base.controller.ts:21-38 | the controller and the filter give the same status exactly for Conflict, NotFound, BadRequest and Unexpected; a validation error is 400 through the controller and 422 through the filter |
| ExceptionFilter.ThroughControllerAndFilter | src/shared/application/filters/global-exception.filter.ts:71-89 | a failed Result sent through the controller and then the filter keeps the controller's status and lists only the domain message; a validation error's details are dropped and its message becomes the default one |
| TrimPipe.TrimValues | src/shared/application/pipes/trim.pipe.ts:9-20 | the payload comes back with every string leaf trimmed, in the spec-function sense |
| TrimPipe.Transform | src/shared/application/pipes/trim.pipe.ts:5-7 | the pipe's result is the trimmed payload, whatever the metadata |
| TrimPipe.TrimmedKeepsShape | src/shared/application/pipes/trim.pipe.ts:9-20 | trimming keeps the structure: the same kinds, lengths, keys and non-string leaves |
| TrimPipe.TrimmedTrimsAllStrings | src/shared/application/pipes/trim.pipe.ts:9-20 | after trimming, every string leaf is trimmed |
| TrimPipe.TrimmedFixesTrimmedTrees | src/shared/application/pipes/trim.pipe.ts:9-20 | a payload whose strings are already trimmed comes back unchanged |
| TrimPipe.TrimmedIdempotent | src/shared/application/pipes/trim.pipe.ts:5-20 | running the pipe twice gives what running it once gives |

## Left out

- I/O and `async`: promises, MikroORM queries and flushes, the NestJS event bus. Each becomes a synchronous call on the in-memory model.
- `uuid` and `new Date()`: the fresh id, the event id and the time are parameters.
- Each operation reads the clock once, where the source reads it two or three times: `createdAt` and `updatedAt` of a new user (src/user/domain/user.model.ts:56-57), and each `updatedAt` stamp of `changePassword`, `ban`, `activate` and `updateProfile` (src/user/domain/user.model.ts:135, 151, 169, 189), are separate `new Date()` calls from the event's `occurredOn` (src/shared/domain/domain-event.ts:19). That a new user's two timestamps are equal, and that an event's time equals the stamp, therefore hold of the model only.
- bcrypt's salt and cost: `Hashing.Hash` is a deterministic, injective stand-in. Two hashes of the same password are therefore equal here, whereas bcrypt salts each one.
- Hashing.Hash: a bcryptjs hash is always 60 characters, and bcrypt uses only the first 72 UTF-8 bytes of a password. Two passwords that agree on those bytes (25 three-byte CJK characters and more, say) compare equal under bcrypt. `Hashing.HashInjective`, `Passwords.CompareAcceptsOnlyOriginal` and `Users.OnlyCurrentPasswordAuthorises` therefore hold of the stand-in only.
- `toLowerCase` beyond ASCII letters, and `length` in UTF-16 code units. Strings are sequences of characters.
- NaN, Infinity and non-numeric strings as page or limit. class-transformer's conversion is not modelled.
- The order in which class-validator lists the messages of several failed constraints on one property. The default message texts are those of the class-validator library, which is not part of this model.
- The `normalizedName`, `normalizedSurname` and `normalizedEmail` columns, the `@OnInit` hook and their unique index. The unique constraint modelled is the one on `email`.
- The search and status filters and the `createdAt DESC` order of `findAllPaginated`. Their outcome is the `matching` input: the ids selected, newest first.
- UserRepositories.Committed: a commit fails only on the unique `email` constraint. The table's other constraints are not modelled (src/shared/infrastructure/persistence/mikro-orm/db/migrations/Migration20250906143028.ts:6). They are the NOT NULL on `password` and the column lengths, for example `varchar(255)` for `email`. A user created without a password, or with an email longer than 255 characters, is therefore committed here, whereas the real flush would reject it. The create command's own validation, which demands a non-empty password (src/user/application/commands/create-user.command.ts:74-77), is left out with the other command validation.
- `existsByEmail` and `findByEmailForAuthentication`. No modelled handler calls them.
- The MikroORM identity map inside `save`. Staging a Persist of the row has the effect `assign` or `persist` has at the next flush.
- The repository's `delete` hands the domain `User`, not the ORM entity, to `em.remove` (src/user/infrastructure/persistence/mikro-orm/repositories/user.repository.impl.ts:112-114). MikroORM's `remove` expects a managed entity, so the implementation most likely throws there (a 500 response, nothing deleted); this was not confirmed. The model stages the removal of that user's row, which is what the repository interface `IUserRepository` promises (src/user/application/repositories/user.repository.ts:25).
- Command validation by class-validator in the command constructors, and the controllers' routes.
- The logger calls of the exception filter and the Express response write. `Catch` returns the status and the body instead.
- NestJS's `HttpException` body construction is library code. `Presentation.Raise` states it as an assumption: an empty string gives the class description as the message, another string is the message with the description as `error`, and an object is the payload itself.
- Concurrency. The command handlers are singletons whose remembered aggregate (`createdUser`, `userToDelete`, `userToChangePassword`) is shared across requests; the model runs one command at a time.
- The dispatcher routes events by class name. `EventDispatcher` records each batch it is handed and not the routing.
- The `domainEvents` getter returns the live array, and callers could mutate it. The model hands out a snapshot.
- Trim pipe: cyclic objects, sub-objects shared between two places (mutated in place, then seen again), and non-plain objects such as `Date`. Payloads are finite trees, and the in-place update becomes a new tree.
- CreateUserHandling.CreateUserCommandHandler.ExecuteAsync: when the table holds two rows with the same email (which the unique constraint rules out), the contract does not say which of them the lookup rebuilds, so it does not say whether the Conflict failure or a rebuild error results.
- Pagination.NewPaginated: states the page count only for a positive limit. With a zero limit, `TotalPages` gives Infinity or NaN, but no lemma is stated about those values.
