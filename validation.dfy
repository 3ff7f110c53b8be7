/**
 * The declarative constraints on EmployeeRequestDTO, as predicates, and the list of
 * field errors the validation engine reports for a request.
 */
module RequestValidation {
  import opened Wrappers
  import opened Dto
  import opened Decimal

  /** One violated constraint: the field's name and the constraint's message. */
  datatype FieldError = FieldError(field: string, message: string)

  const EMAIL_REQUIRED := "Email is required"
  const EMAIL_INVALID := "Invalid email format"
  const NAME_REQUIRED := "Name is required"
  const NAME_INVALID := "Enter valid name"
  const DEPARTMENT_REQUIRED := "Department is required"
  const SALARY_REQUIRED := "Salary is required"
  const SALARY_TOO_LOW := "Salary must be at least 1000"
  const PASSWORD_REQUIRED := "Password is required"
  const PASSWORD_INVALID := "Password must be at least 8 characters, include a digit, an uppercase letter, and a special character"
  const GENDER_REQUIRED := "Gender is required"
  const GENDER_INVALID := "Gender must be FEMALE, MALE, or OTHERS"
  const DOB_NOT_PAST := "DOB must be in the past"
  const JOIN_DATE_PAST := "Join date cannot be in the past"
  const SKILLS_EMPTY := "Skills cannot be empty"

  const MIN_SALARY: real := 1000.0
  const PASSWORD_SPECIALS := "@#$%^&+=!"

  predicate IsUpper(c: char) { 'A' <= c <= 'Z' }
  predicate IsLower(c: char) { 'a' <= c <= 'z' }

  /** The characters '.' in a Java regular expression does not match. */
  predicate IsLineTerminator(c: char) {
    c == '\n' || c == '\r' || c == '\U{85}' || c == '\U{2028}' || c == '\U{2029}'
  }

  /** @NotBlank: present and not all blank (String.trim removes every char up to ' '). */
  predicate NotBlank(s: Option<string>) {
    s.Some? && exists c | c in s.value :: c > ' '
  }

  /** `^[A-Z][a-z,A-Z]{2,}$` over the whole string; the comma is part of the class. */
  predicate NameMatches(s: string) {
    && |s| >= 3
    && IsUpper(s[0])
    && forall i | 1 <= i < |s| :: IsLower(s[i]) || IsUpper(s[i]) || s[i] == ','
  }

  /** `^(?=.*[0-9])(?=.*[A-Z])(?=.*[@#$%^&+=!]).{8,}$` over the whole string. */
  predicate PasswordMatches(s: string) {
    && |s| >= 8
    && (forall c | c in s :: !IsLineTerminator(c))
    && (exists c | c in s :: IsDigit(c))
    && (exists c | c in s :: IsUpper(c))
    && (exists c | c in s :: c in PASSWORD_SPECIALS)
  }

  /** `FEMALE|MALE|OTHERS` over the whole string. */
  predicate GenderMatches(s: string) {
    s == "FEMALE" || s == "MALE" || s == "OTHERS"
  }

  // Each constraint other than @NotNull, @NotBlank and @NotEmpty accepts a null value.

  /** @Email: null and the empty string pass; any other string must be email-shaped. */
  predicate EmailFormatOk(email: Option<string>, emailShaped: string -> bool) {
    email.None? || email.value == "" || emailShaped(email.value)
  }

  predicate EmailOk(dto: EmployeeRequest, emailShaped: string -> bool) {
    NotBlank(dto.email) && EmailFormatOk(dto.email, emailShaped)
  }

  predicate NameOk(dto: EmployeeRequest) {
    NotBlank(dto.name) && NameMatches(dto.name.value)
  }

  predicate DepartmentOk(dto: EmployeeRequest) {
    NotBlank(dto.department)
  }

  predicate SalaryOk(dto: EmployeeRequest) {
    dto.salary.Some? && dto.salary.value >= MIN_SALARY
  }

  predicate PasswordOk(dto: EmployeeRequest) {
    NotBlank(dto.password) && PasswordMatches(dto.password.value)
  }

  predicate GenderOk(dto: EmployeeRequest) {
    NotBlank(dto.gender) && GenderMatches(dto.gender.value)
  }

  /** @Past against the day `today`. */
  predicate DobOk(dto: EmployeeRequest, today: Date) {
    dto.dob.None? || dto.dob.value < today
  }

  /** @FutureOrPresent against the day `today`. */
  predicate JoinDateOk(dto: EmployeeRequest, today: Date) {
    dto.joinDate.None? || dto.joinDate.value >= today
  }

  predicate SkillsOk(dto: EmployeeRequest) {
    dto.skills.Some? && |dto.skills.value| > 0
  }

  /** Every constraint of the request holds. */
  predicate Valid(dto: EmployeeRequest, today: Date, emailShaped: string -> bool) {
    && EmailOk(dto, emailShaped) && NameOk(dto) && DepartmentOk(dto) && SalaryOk(dto)
    && PasswordOk(dto) && GenderOk(dto) && DobOk(dto, today) && JoinDateOk(dto, today)
    && SkillsOk(dto)
  }

  /** The names of the fields whose constraints fail. */
  function FailingFields(dto: EmployeeRequest, today: Date, emailShaped: string -> bool): set<string> {
    (if EmailOk(dto, emailShaped) then {} else {"email"})
    + (if NameOk(dto) then {} else {"name"})
    + (if DepartmentOk(dto) then {} else {"department"})
    + (if SalaryOk(dto) then {} else {"salary"})
    + (if PasswordOk(dto) then {} else {"password"})
    + (if GenderOk(dto) then {} else {"gender"})
    + (if DobOk(dto, today) then {} else {"dob"})
    + (if JoinDateOk(dto, today) then {} else {"joinDate"})
    + (if SkillsOk(dto) then {} else {"skills"})
  }

  function Check(ok: bool, field: string, message: string): seq<FieldError> {
    if ok then [] else [FieldError(field, message)]
  }

  /** All errors in the list are about the field `field`. */
  predicate AllAbout(errors: seq<FieldError>, field: string) {
    forall e | e in errors :: e.field == field
  }

  // The errors of each field, in the order of its annotations. `emailShaped` stands
  // for the library's @Email rule.

  function EmailErrors(dto: EmployeeRequest, emailShaped: string -> bool): (errors: seq<FieldError>)
    ensures errors == [] <==> EmailOk(dto, emailShaped)
    ensures AllAbout(errors, "email")
    ensures FieldError("email", EMAIL_REQUIRED) in errors <==> !NotBlank(dto.email)
    ensures FieldError("email", EMAIL_INVALID) in errors <==> !EmailFormatOk(dto.email, emailShaped)
    ensures forall e | e in errors :: e.message == EMAIL_REQUIRED || e.message == EMAIL_INVALID
  {
    Check(NotBlank(dto.email), "email", EMAIL_REQUIRED)
    + Check(EmailFormatOk(dto.email, emailShaped), "email", EMAIL_INVALID)
  }

  function NameErrors(dto: EmployeeRequest): (errors: seq<FieldError>)
    ensures errors == [] <==> NameOk(dto)
    ensures AllAbout(errors, "name")
    ensures FieldError("name", NAME_REQUIRED) in errors <==> !NotBlank(dto.name)
    ensures FieldError("name", NAME_INVALID) in errors <==> dto.name.Some? && !NameMatches(dto.name.value)
    ensures forall e | e in errors :: e.message == NAME_REQUIRED || e.message == NAME_INVALID
  {
    Check(NotBlank(dto.name), "name", NAME_REQUIRED)
    + Check(dto.name.None? || NameMatches(dto.name.value), "name", NAME_INVALID)
  }

  function DepartmentErrors(dto: EmployeeRequest): (errors: seq<FieldError>)
    ensures errors == [] <==> DepartmentOk(dto)
    ensures AllAbout(errors, "department")
    ensures FieldError("department", DEPARTMENT_REQUIRED) in errors <==> !NotBlank(dto.department)
    ensures forall e | e in errors :: e.message == DEPARTMENT_REQUIRED
  {
    Check(NotBlank(dto.department), "department", DEPARTMENT_REQUIRED)
  }

  function SalaryErrors(dto: EmployeeRequest): (errors: seq<FieldError>)
    ensures errors == [] <==> SalaryOk(dto)
    ensures AllAbout(errors, "salary")
    ensures FieldError("salary", SALARY_REQUIRED) in errors <==> dto.salary.None?
    ensures FieldError("salary", SALARY_TOO_LOW) in errors <==> dto.salary.Some? && dto.salary.value < MIN_SALARY
    ensures forall e | e in errors :: e.message == SALARY_REQUIRED || e.message == SALARY_TOO_LOW
  {
    Check(dto.salary.Some?, "salary", SALARY_REQUIRED)
    + Check(dto.salary.None? || dto.salary.value >= MIN_SALARY, "salary", SALARY_TOO_LOW)
  }

  function PasswordErrors(dto: EmployeeRequest): (errors: seq<FieldError>)
    ensures errors == [] <==> PasswordOk(dto)
    ensures AllAbout(errors, "password")
    ensures FieldError("password", PASSWORD_REQUIRED) in errors <==> !NotBlank(dto.password)
    ensures FieldError("password", PASSWORD_INVALID) in errors <==> dto.password.Some? && !PasswordMatches(dto.password.value)
    ensures forall e | e in errors :: e.message == PASSWORD_REQUIRED || e.message == PASSWORD_INVALID
  {
    Check(NotBlank(dto.password), "password", PASSWORD_REQUIRED)
    + Check(dto.password.None? || PasswordMatches(dto.password.value), "password", PASSWORD_INVALID)
  }

  function GenderErrors(dto: EmployeeRequest): (errors: seq<FieldError>)
    ensures errors == [] <==> GenderOk(dto)
    ensures AllAbout(errors, "gender")
    ensures FieldError("gender", GENDER_REQUIRED) in errors <==> !NotBlank(dto.gender)
    ensures FieldError("gender", GENDER_INVALID) in errors <==> dto.gender.Some? && !GenderMatches(dto.gender.value)
    ensures forall e | e in errors :: e.message == GENDER_REQUIRED || e.message == GENDER_INVALID
  {
    Check(NotBlank(dto.gender), "gender", GENDER_REQUIRED)
    + Check(dto.gender.None? || GenderMatches(dto.gender.value), "gender", GENDER_INVALID)
  }

  function DobErrors(dto: EmployeeRequest, today: Date): (errors: seq<FieldError>)
    ensures errors == [] <==> DobOk(dto, today)
    ensures AllAbout(errors, "dob")
    ensures FieldError("dob", DOB_NOT_PAST) in errors <==> dto.dob.Some? && dto.dob.value >= today
    ensures forall e | e in errors :: e.message == DOB_NOT_PAST
  {
    Check(DobOk(dto, today), "dob", DOB_NOT_PAST)
  }

  function JoinDateErrors(dto: EmployeeRequest, today: Date): (errors: seq<FieldError>)
    ensures errors == [] <==> JoinDateOk(dto, today)
    ensures AllAbout(errors, "joinDate")
    ensures FieldError("joinDate", JOIN_DATE_PAST) in errors <==> dto.joinDate.Some? && dto.joinDate.value < today
    ensures forall e | e in errors :: e.message == JOIN_DATE_PAST
  {
    Check(JoinDateOk(dto, today), "joinDate", JOIN_DATE_PAST)
  }

  function SkillsErrors(dto: EmployeeRequest): (errors: seq<FieldError>)
    ensures errors == [] <==> SkillsOk(dto)
    ensures AllAbout(errors, "skills")
    ensures FieldError("skills", SKILLS_EMPTY) in errors <==> dto.skills.None? || dto.skills.value == []
    ensures forall e | e in errors :: e.message == SKILLS_EMPTY
  {
    Check(SkillsOk(dto), "skills", SKILLS_EMPTY)
  }

  /** The field errors reported for a request: one per violated constraint. */
  function FieldErrors(dto: EmployeeRequest, today: Date, emailShaped: string -> bool): (errors: seq<FieldError>)
    ensures errors == [] <==> Valid(dto, today, emailShaped)
  {
    EmailErrors(dto, emailShaped) + NameErrors(dto) + DepartmentErrors(dto) + SalaryErrors(dto)
    + PasswordErrors(dto) + GenderErrors(dto) + DobErrors(dto, today) + JoinDateErrors(dto, today)
    + SkillsErrors(dto)
  }

  /** The sample request (Alice, Eng, 5000, "Abcdef1!", FEMALE, skills ["Go"]) passes. */
  lemma SampleRequestIsValid(today: Date, dob: Date, joinDate: Date, emailShaped: string -> bool)
    requires emailShaped("a@x.com")
    requires dob < today <= joinDate
    ensures Valid(EmployeeRequest(Some("a@x.com"), Some("Alice"), Some("Eng"), Some(5000.0),
                                  Some("Abcdef1!"), Some("FEMALE"), Some(dob), Some(joinDate),
                                  Some(["Go"])), today, emailShaped)
  {
    var password := "Abcdef1!";
    assert password[0] in password && IsUpper(password[0]);
    assert password[6] in password && IsDigit(password[6]);
    assert password[7] in password && password[7] in PASSWORD_SPECIALS;
    assert "a@x.com"[0] in "a@x.com";
    assert "Alice"[0] in "Alice";
    assert "Eng"[0] in "Eng";
    assert "FEMALE"[0] in "FEMALE";
  }

  /** Names the pattern rejects and one it accepts because of the comma in its class. */
  lemma NamePatternExamples()
    ensures NameMatches("Alice") && NameMatches("Al,")
    ensures !NameMatches("Al") && !NameMatches("alice") && !NameMatches("Al1ce")
  {
    assert "Al1ce"[2] == '1';
  }

  /** The sample password passes; one without an upper-case letter or too short fails. */
  lemma PasswordPatternExamples()
    ensures PasswordMatches("Abcdef1!")
    ensures !PasswordMatches("abcdef1!") && !PasswordMatches("Abc1!")
  {
    var p := "Abcdef1!";
    assert p[0] in p && IsUpper(p[0]);
    assert p[6] in p && IsDigit(p[6]);
    assert p[7] in p && p[7] in PASSWORD_SPECIALS;
  }

  /** A line terminator anywhere makes the password fail, even with every required class. */
  lemma PasswordRejectsLineTerminator()
    ensures !PasswordMatches("Abcdef1!\n")
  {
    var q := "Abcdef1!\n";
    assert q[8] in q && IsLineTerminator(q[8]);
  }
}
