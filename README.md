# Employee CRUD service — a Dafny model

This project models the core of a small employee-records backend. The core is the
`EmployeeService` that creates, reads, updates and deletes employees in a repository,
and the `EmployeeMapper` that converts between the inbound request, the persisted
entity and the outbound response. It also covers the constraints declared on
`EmployeeRequestDTO` and the two answers of `GlobalExceptionHandler`: the
field-to-message map with status 400, and the not-found message with status 404.

Modules, one per component:

- `Wrappers` (`wrappers.dfy`): `Option` stands for a Java reference that may be null; `Result` stands for a call that returns or throws.
- `Dto` (`dto.dfy`): `EmployeeRequest` and `EmployeeResponse`. A `LocalDate` is a day number (`Date = int`).
- `Entity` (`entity.dfy`): `EmployeeRecord` is the state of one entity, as a value. The class `Employee` is the entity object whose setters change it in place.
- `Mapper` (`mapper.dfy`): `MapToEntity` and `MapToDTO` as functions. `UpdateEntity` is a method that overwrites an `Employee` object field by field.
- `RequestValidation` (`validation.dfy`): one predicate per constraint, and the list of field errors reported for a request.
- `Exceptions` (`exceptions.dfy`): the not-found and data-integrity exceptions, and the not-found message (`Decimal` renders the id as `Long.toString` does).
- `ExceptionHandler` (`exception_handler.dfy`): the fold of field errors into a map, and both handlers.
- `Repository` (`repository.dfy`): the table as a class. It holds a map from id to row, the ids in insertion order (the order `findAll` returns), an identity counter, and a ghost log of the repository calls made. The log lets the contracts say that a lookup comes before any change.
- `Service` (`service.dfy`): `EmployeeService` over a repository and an `EmailService`. The mail service records every attempted mail. Its `transportDown` flag makes every attempt fail, which stands for `MessagingException`.
- `NotFoundAnswer` (`not_found_answer.dfy`): what a client receives when the id is missing.

Points where the source is easy to misread:

- The class `[a-z,A-Z]` in the name pattern `^[A-Z][a-z,A-Z]{2,}$` contains a literal comma, so `Al,` is accepted as a name (`NamePatternExamples`).
- `EmployeeMapper.java` line 32 calls `.email(...)` on the response builder. `EmployeeResponseDTO` declares no `email` field. The model follows the declaration: a response has neither email nor password.
- The update path overwrites every field, including email and password, as `updateEntity` does.

The store enforces the two constraints on the email column: not null and unique. A `save` that breaks either fails with `DataIntegrityViolation` and changes nothing. The service does not check them itself. The repository's invariant `Valid()` includes both constraints, so no two stored rows share an email, and every operation is proved to keep it.

## Model

| member | source | states |
|---|---|---|
| `Mapper.MapToEntity` | src/main/java/com/gevernova/employee/mapper/EmployeeMapper.java:10-24 | null maps to null; otherwise the entity has no id and its nine request columns read back as exactly the request |
| `Mapper.MapToDTO` | src/main/java/com/gevernova/employee/mapper/EmployeeMapper.java:27-41 | null maps to null; otherwise the response copies id, name, department, salary, gender, dob, joinDate and skills |
| `Mapper.MapToDTOSeesPublicFieldsOnly` | src/main/java/com/gevernova/employee/mapper/EmployeeMapper.java:30-40 | two entities get equal responses if and only if they agree on id, name, department, salary, gender, dob, joinDate and skills |
| `Mapper.PasswordNeverReachesResponse` | src/main/java/com/gevernova/employee/mapper/EmployeeMapper.java:30-40 | changing the stored password (or email) never changes the response |
| `Mapper.Overwritten` | src/main/java/com/gevernova/employee/mapper/EmployeeMapper.java:44-54 | the overwritten entity keeps its id and its nine columns equal the request |
| `Mapper.UpdateEntity` | src/main/java/com/gevernova/employee/mapper/EmployeeMapper.java:44-54 | the entity object is changed in place to `Overwritten` of its old state |
| `Mapper.OverwriteIdempotent` | src/main/java/com/gevernova/employee/mapper/EmployeeMapper.java:44-54 | applying the same request twice gives the same entity as applying it once |
| `Mapper.OverwriteIsMappedRequest` | src/main/java/com/gevernova/employee/mapper/EmployeeMapper.java:13-23 | an update is a full replace: the entity `mapToEntity` would build, under the old id |
| `Mapper.ResponseAfterUpdate` | src/main/java/com/gevernova/employee/mapper/EmployeeMapper.java:30-40 | the response after an update equals the response of the mapped request with the old id |
| `RequestValidation.EmailErrors` | src/main/java/com/gevernova/employee/dto/EmployeeRequestDTO.java:18-20 | no email error exactly when the email is non-blank and passes `@Email`; "Email is required" is reported exactly for a blank or null email, "Invalid email format" exactly for a non-empty email that is not email-shaped (`@Email` passes null and ""); no other message appears, and every error names "email" |
| `RequestValidation.NameErrors` | src/main/java/com/gevernova/employee/dto/EmployeeRequestDTO.java:22-24 | no name error exactly when the name is non-blank and matches the pattern; "Name is required" exactly for a blank or null name, "Enter valid name" exactly for a present name that does not match; no other message |
| `RequestValidation.DepartmentErrors` | src/main/java/com/gevernova/employee/dto/EmployeeRequestDTO.java:26-27 | no department error exactly when the department is non-blank; the only message is "Department is required", reported exactly for a blank or null department |
| `RequestValidation.SalaryErrors` | src/main/java/com/gevernova/employee/dto/EmployeeRequestDTO.java:29-31 | no salary error exactly when the salary is present and at least 1000; "Salary is required" exactly for a null salary, "Salary must be at least 1000" exactly for a present salary below 1000; no other message |
| `RequestValidation.PasswordErrors` | src/main/java/com/gevernova/employee/dto/EmployeeRequestDTO.java:33-38 | no password error exactly when the password is non-blank and matches the complexity pattern; "Password is required" exactly for a blank or null password, the complexity message exactly for a present password that does not match; no other message |
| `RequestValidation.GenderErrors` | src/main/java/com/gevernova/employee/dto/EmployeeRequestDTO.java:40-42 | no gender error exactly when the gender is FEMALE, MALE or OTHERS; "Gender is required" exactly for a blank or null gender, "Gender must be FEMALE, MALE, or OTHERS" exactly for a present gender outside the three; no other message |
| `RequestValidation.DobErrors` | src/main/java/com/gevernova/employee/dto/EmployeeRequestDTO.java:44-45 | an absent dob passes; a present one must be before today, and "DOB must be in the past" is reported exactly when it is not; no other message |
| `RequestValidation.JoinDateErrors` | src/main/java/com/gevernova/employee/dto/EmployeeRequestDTO.java:47-48 | an absent joinDate passes; a present one must be today or later, and "Join date cannot be in the past" is reported exactly when it is earlier; no other message |
| `RequestValidation.SkillsErrors` | src/main/java/com/gevernova/employee/dto/EmployeeRequestDTO.java:50-51 | no skills error exactly when the list is present and non-empty; "Skills cannot be empty" is reported exactly for a null or empty list; no other message |
| `RequestValidation.FieldErrors` | src/main/java/com/gevernova/employee/dto/EmployeeRequestDTO.java:18-51 | a request gets no field error if and only if every constraint holds |
| `RequestValidation.SampleRequestIsValid` | src/main/java/com/gevernova/employee/dto/EmployeeRequestDTO.java:18-51 | the sample request (Alice, Eng, 5000, "Abcdef1!", FEMALE, ["Go"]) satisfies every constraint |
| `RequestValidation.NamePatternExamples` | src/main/java/com/gevernova/employee/dto/EmployeeRequestDTO.java:23 | "Alice" and "Al," match; "Al", "alice" and "Al1ce" do not |
| `RequestValidation.PasswordPatternExamples` | src/main/java/com/gevernova/employee/dto/EmployeeRequestDTO.java:35 | "Abcdef1!" matches; a password with no upper-case letter or under 8 characters does not |
| `RequestValidation.PasswordRejectsLineTerminator` | src/main/java/com/gevernova/employee/dto/EmployeeRequestDTO.java:35 | a line terminator makes the password fail, because `.` does not match it |
| `ExceptionHandler.ErrorMapKeys` | src/main/java/com/gevernova/employee/exceptionhandler/GlobalExceptionHandler.java:16-19 | the map's keys are exactly the field names in the error list |
| `ExceptionHandler.ErrorMapKeepsLast` | src/main/java/com/gevernova/employee/exceptionhandler/GlobalExceptionHandler.java:19 | a field's value is the message of the last error for that field, because put overwrites |
| `ExceptionHandler.ErrorMapConcat` | src/main/java/com/gevernova/employee/exceptionhandler/GlobalExceptionHandler.java:16-19 | filling the map from a + b gives the map of a overridden by the map of b |
| `ExceptionHandler.HandleValidationErrors` | src/main/java/com/gevernova/employee/exceptionhandler/GlobalExceptionHandler.java:15-21 | status 400; the body is the fold of the errors, its keys are the errors' fields, and it is empty for no errors |
| `ExceptionHandler.HandleUserNotFoundException` | src/main/java/com/gevernova/employee/exceptionhandler/GlobalExceptionHandler.java:24-26 | status 404 with the exception's message unchanged as the body |
| `ExceptionHandler.ValidationAnswerKeys` | src/main/java/com/gevernova/employee/exceptionhandler/GlobalExceptionHandler.java:16-19 | the 400 body for a request has one entry per failing field and no other |
| `ExceptionHandler.ValidRequestHasEmptyAnswer` | src/main/java/com/gevernova/employee/exceptionhandler/GlobalExceptionHandler.java:16-20 | the error map is empty if and only if the request satisfies every constraint |
| `ExceptionHandler.LowSalaryAnswer` | src/main/java/com/gevernova/employee/dto/EmployeeRequestDTO.java:29-31 | a salary below 1000 is answered with "salary" mapped to "Salary must be at least 1000" |
| `ExceptionHandler.EmptySkillsAnswer` | src/main/java/com/gevernova/employee/dto/EmployeeRequestDTO.java:50-51 | a null or empty skills list is answered with "skills" mapped to "Skills cannot be empty" |
| `Exceptions.NotFoundMessage` | src/main/java/com/gevernova/employee/service/EmployeeService.java:57 | the message is the fixed prefix followed by the id in decimal |
| `Exceptions.NotFoundMessageIdentifiesId` | src/main/java/com/gevernova/employee/service/EmployeeService.java:57 | different ids give different not-found messages |
| `Exceptions.NotFoundMessageExample` | src/main/java/com/gevernova/employee/service/EmployeeService.java:57 | the message for id 999 is "Employee not found with id: 999" |
| `Decimal.LongToStringInjective` | src/main/java/com/gevernova/employee/service/EmployeeService.java:57 | the decimal rendering of an id determines the id |
| `Repository.EmployeeRepository.FindAll` | src/main/java/com/gevernova/employee/repository/EmployeeRepository.java:6 | one row per stored id, in insertion order, each carrying its own id |
| `Repository.EmployeeRepository.FindById` | src/main/java/com/gevernova/employee/repository/EmployeeRepository.java:6 | a fresh entity object holding the row if the id is stored, otherwise null; the table is unchanged |
| `Repository.EmployeeRepository.ExistsById` | src/main/java/com/gevernova/employee/repository/EmployeeRepository.java:6 | true exactly when the id is stored; the table is unchanged |
| `Repository.EmployeeRepository.Save` | src/main/java/com/gevernova/employee/entity/Employee.java:18-23 | fails, changing nothing, on a null or duplicate email; otherwise inserts under the next generated id, or replaces the row with the entity's id; keeps every email non-null and unique across rows |
| `Repository.WithoutKeepsDistinct` | src/main/java/com/gevernova/employee/repository/EmployeeRepository.java:6 | removing an id from an id list without repeats leaves a list without repeats |
| `Repository.WithoutCutsPosition` | src/main/java/com/gevernova/employee/repository/EmployeeRepository.java:6 | in an id list without repeats, removing an id cuts out its one position and keeps every other id in order |
| `Repository.EmployeeRepository.DeleteById` | src/main/java/com/gevernova/employee/repository/EmployeeRepository.java:6 | removes that id's row; the id list loses exactly that one position and keeps every other id in order |
| `Service.WelcomeMails` | src/main/java/com/gevernova/employee/service/EmployeeService.java:31-37 | one welcome mail, to the saved email, exactly when that email is non-null and non-empty |
| `Service.EmailService.SendEmail` | src/main/java/com/gevernova/employee/service/EmployeeService.java:33-37 | the attempt is recorded; it fails exactly while the transport is down |
| `Service.EmployeeService.GetEmployeeId` | src/main/java/com/gevernova/employee/service/EmployeeService.java:53-60 | a stored id gives the mapped row, whose id is that id; a missing id gives the not-found error with its fixed message |
| `Service.EmployeeService.GetAllEmployees` | src/main/java/com/gevernova/employee/service/EmployeeService.java:47-51 | one response per stored row, in repository order, each equal to what `GetEmployeeId` gives for it |
| `Service.EmployeeService.CreateEmployee` | src/main/java/com/gevernova/employee/service/EmployeeService.java:26-45 | saves the mapped request under a fresh id and changes no other row; reading that id back gives the returned response; the welcome mail is attempted only for a non-empty email; a failed mail never fails the create; a null or duplicate email fails and changes nothing |
| `Service.EmployeeService.UpdateEmployee` | src/main/java/com/gevernova/employee/service/EmployeeService.java:62-73 | a missing id fails with the not-found error after only the lookup, so nothing changes; otherwise the row becomes the overwritten entity under the same id, other rows stay, and reading it back gives the returned response |
| `Service.EmployeeService.DeleteEmployee` | src/main/java/com/gevernova/employee/service/EmployeeService.java:75-82 | a missing id fails with the not-found error and no delete is issued; otherwise exactly that row is removed, every other row is unchanged, and the listing order of the rest is kept |
| `NotFoundAnswer.MissingIdAnswer` | src/main/java/com/gevernova/employee/exceptionhandler/GlobalExceptionHandler.java:23-26 | a lookup of a missing id is answered 404 with "Employee not found with id: " and the id |

## Left out

- `EmployeeController`: HTTP routing, the 201/200 statuses and the "Employee deleted with ID: " text are a thin adapter. They are not modelled.
- Logging: every `log.*` call has no effect on behaviour.
- `EmailService` (package `utlijms`) is not part of this model. It is stood in for by a transport that records each attempt and fails while `transportDown` holds.
- `UserNotFoundException` is not part of this model beyond its message.
- The validation engine: the `@Email` rule is a parameter `emailShaped`, consulted only for a non-empty string, since `@Email` accepts null and the empty string. The order in which the engine reports field errors is unspecified; the model uses declaration order, and annotation order within a field. `@NotBlank` is modelled as Hibernate's test: some character above the space character.
- The clock: `@Past` and `@FutureOrPresent` compare against a `today` parameter.
- Salary is a `real`, not a `Double`: rounding, NaN and infinities are not modelled.
- Ids are unbounded integers: the `Long` range and overflow of the identity counter are not modelled.
- Java `char` is a UTF-16 code unit; Dafny's `char` is a Unicode scalar value. Surrogate pairs are not modelled.
- JPA: identity generation is a counter starting at 1, and `findAll` returns rows in insertion order. `findById` returns a fresh detached object, because the service runs no transaction of its own. Concurrency and transactions are not modelled.
- Repository.EmployeeRepository.Save: saving an entity whose id is not in the table is excluded by a precondition. The service only saves a new entity or one it has just found.
- Mapper.UpdateEntity: takes a non-null request. A null request would throw a `NullPointerException`; the controller never passes one.
- Service.EmployeeService.CreateEmployee: takes a non-null request, as the controller's request body always is. `mapToEntity(null)` is still modelled in `MapToEntity`.
- Skills are a value sequence: the entity sharing the request's `List` object, and null list elements, are not modelled.
