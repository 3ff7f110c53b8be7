/** GlobalExceptionHandler: the answers given for validation failures and missing ids. */
module ExceptionHandler {
  import opened Wrappers
  import opened Dto
  import opened RequestValidation
  import opened Exceptions

  /** An HTTP answer: a status code and a body. */
  datatype ErrorResponse<B> = ErrorResponse(status: int, body: B)

  const BAD_REQUEST := 400
  const NOT_FOUND := 404

  /** The names of the fields the errors are about. */
  function FieldsOf(errors: seq<FieldError>): set<string> {
    set e | e in errors :: e.field
  }

  /** The map the handler fills by putting every error in list order into an empty map. */
  function ErrorMap(errors: seq<FieldError>): map<string, string> {
    if errors == [] then map[]
    else
      var last := errors[|errors| - 1];
      ErrorMap(errors[..|errors| - 1])[last.field := last.message]
  }

  /** `message` is the message of the last error in the list about `field`. */
  ghost predicate IsLastMessage(errors: seq<FieldError>, field: string, message: string) {
    exists i | 0 <= i < |errors| ::
      && errors[i] == FieldError(field, message)
      && forall j | i < j < |errors| :: errors[j].field != field
  }

  /** The map has exactly one key per field named in the list. */
  lemma {:induction false} ErrorMapKeys(errors: seq<FieldError>)
    ensures ErrorMap(errors).Keys == FieldsOf(errors)
  {
    if errors != [] {
      var init := errors[..|errors| - 1];
      ErrorMapKeys(init);
      assert errors == init + [errors[|errors| - 1]];
      assert FieldsOf(errors) == FieldsOf(init) + {errors[|errors| - 1].field};
    }
  }

  /** Where a field has several errors, the map keeps the last one's message. */
  lemma {:induction false} ErrorMapKeepsLast(errors: seq<FieldError>, field: string)
    requires field in ErrorMap(errors)
    ensures IsLastMessage(errors, field, ErrorMap(errors)[field])
  {
    var n := |errors| - 1;
    var init := errors[..n];
    if errors[n].field == field {
      assert errors[n] == FieldError(field, ErrorMap(errors)[field]);
    } else {
      ErrorMapKeepsLast(init, field);
      var i :| 0 <= i < |init| && init[i] == FieldError(field, ErrorMap(init)[field])
               && forall j | i < j < |init| :: init[j].field != field;
      assert errors[i] == init[i];
      assert forall j | i < j < |errors| :: errors[j].field != field by {
        forall j | i < j < |errors| ensures errors[j].field != field {
          if j < n {
            assert errors[j] == init[j];
          }
        }
      }
    }
  }

  /** handleValidationErrors: status 400 with the field-to-message map of the errors. */
  method HandleValidationErrors(errors: seq<FieldError>) returns (r: ErrorResponse<map<string, string>>)
    ensures r.status == BAD_REQUEST
    ensures r.body == ErrorMap(errors)
    ensures r.body.Keys == FieldsOf(errors)
    ensures errors == [] ==> r.body == map[]
  {
    var m: map<string, string> := map[];
    for i := 0 to |errors|
      invariant m == ErrorMap(errors[..i])
    {
      assert errors[..i + 1][..i] == errors[..i];
      m := m[errors[i].field := errors[i].message];
    }
    assert errors[..|errors|] == errors;
    ErrorMapKeys(errors);
    r := ErrorResponse(BAD_REQUEST, m);
  }

  /** handleUserNotFoundException: status 404 with the exception's message as the body. */
  function HandleUserNotFoundException(exception: ServiceException): (r: ErrorResponse<string>)
    requires exception.UserNotFound?
    ensures r.status == NOT_FOUND
    ensures r.body == exception.message
  {
    ErrorResponse(NOT_FOUND, exception.message)
  }

  /** A field's errors say nothing about any other field. */
  lemma FieldsOfOneField(errors: seq<FieldError>, field: string)
    requires AllAbout(errors, field)
    ensures FieldsOf(errors) == if errors == [] then {} else {field}
  {
    if errors != [] {
      assert errors[0] in errors;
    }
  }

  lemma FieldsOfConcat(a: seq<FieldError>, b: seq<FieldError>)
    ensures FieldsOf(a + b) == FieldsOf(a) + FieldsOf(b)
  {
  }

  /** The answer to an invalid request has one entry per failing field and no other. */
  lemma ValidationAnswerKeys(dto: EmployeeRequest, today: Date, emailShaped: string -> bool)
    ensures ErrorMap(FieldErrors(dto, today, emailShaped)).Keys == FailingFields(dto, today, emailShaped)
  {
    var e1, e2, e3 := EmailErrors(dto, emailShaped), NameErrors(dto), DepartmentErrors(dto);
    var e4, e5, e6 := SalaryErrors(dto), PasswordErrors(dto), GenderErrors(dto);
    var e7, e8, e9 := DobErrors(dto, today), JoinDateErrors(dto, today), SkillsErrors(dto);
    FieldsOfOneField(e1, "email");
    FieldsOfOneField(e2, "name");
    FieldsOfOneField(e3, "department");
    FieldsOfOneField(e4, "salary");
    FieldsOfOneField(e5, "password");
    FieldsOfOneField(e6, "gender");
    FieldsOfOneField(e7, "dob");
    FieldsOfOneField(e8, "joinDate");
    FieldsOfOneField(e9, "skills");
    FieldsOfConcat(e1, e2);
    FieldsOfConcat(e1 + e2, e3);
    FieldsOfConcat(e1 + e2 + e3, e4);
    FieldsOfConcat(e1 + e2 + e3 + e4, e5);
    FieldsOfConcat(e1 + e2 + e3 + e4 + e5, e6);
    FieldsOfConcat(e1 + e2 + e3 + e4 + e5 + e6, e7);
    FieldsOfConcat(e1 + e2 + e3 + e4 + e5 + e6 + e7, e8);
    FieldsOfConcat(e1 + e2 + e3 + e4 + e5 + e6 + e7 + e8, e9);
    ErrorMapKeys(FieldErrors(dto, today, emailShaped));
  }

  /** A request gets an empty error map exactly when it satisfies every constraint. */
  lemma ValidRequestHasEmptyAnswer(dto: EmployeeRequest, today: Date, emailShaped: string -> bool)
    ensures ErrorMap(FieldErrors(dto, today, emailShaped)) == map[] <==> Valid(dto, today, emailShaped)
  {
    var errors := FieldErrors(dto, today, emailShaped);
    ErrorMapKeys(errors);
    if errors != [] {
      assert errors[0].field in FieldsOf(errors);
    }
  }

  /** Filling the map from two lists in turn: entries of the second replace those of the first. */
  lemma {:induction false} ErrorMapConcat(a: seq<FieldError>, b: seq<FieldError>)
    ensures ErrorMap(a + b) == ErrorMap(a) + ErrorMap(b)
  {
    if b == [] {
      assert a + b == a;
    } else {
      var init := b[..|b| - 1];
      ErrorMapConcat(a, init);
      assert (a + b)[..|a + b| - 1] == a + init;
    }
  }

  /** The answer for one field is decided by that field's own errors. */
  lemma AnswerForField(before: seq<FieldError>, own: seq<FieldError>, after: seq<FieldError>, field: string)
    requires own != [] && AllAbout(own, field)
    requires field !in FieldsOf(after)
    ensures field in ErrorMap(before + own + after)
    ensures ErrorMap(before + own + after)[field] == own[|own| - 1].message
  {
    ErrorMapConcat(before + own, after);
    ErrorMapConcat(before, own);
    ErrorMapKeys(after);
    assert own[|own| - 1] in own;
  }

  /** Errors about other fields leave a field's entry as it was. */
  lemma KeptAcross(xs: seq<FieldError>, ys: seq<FieldError>, field: string)
    requires field in ErrorMap(xs) && field !in FieldsOf(ys)
    ensures field in ErrorMap(xs + ys) && ErrorMap(xs + ys)[field] == ErrorMap(xs)[field]
  {
    ErrorMapConcat(xs, ys);
    ErrorMapKeys(ys);
  }

  /** In the nine lists in field order, the salary entry is the last of the salary errors. */
  lemma SalaryAnswerFromOwnErrors(e1: seq<FieldError>, e2: seq<FieldError>, e3: seq<FieldError>,
                                  e4: seq<FieldError>, e5: seq<FieldError>, e6: seq<FieldError>,
                                  e7: seq<FieldError>, e8: seq<FieldError>, e9: seq<FieldError>)
    requires e4 != [] && AllAbout(e4, "salary")
    requires AllAbout(e5, "password") && AllAbout(e6, "gender") && AllAbout(e7, "dob")
    requires AllAbout(e8, "joinDate") && AllAbout(e9, "skills")
    ensures "salary" in ErrorMap(e1 + e2 + e3 + e4 + e5 + e6 + e7 + e8 + e9)
    ensures ErrorMap(e1 + e2 + e3 + e4 + e5 + e6 + e7 + e8 + e9)["salary"] == e4[|e4| - 1].message
  {
    AnswerForField(e1 + e2 + e3, e4, [], "salary");
    assert e1 + e2 + e3 + e4 + [] == e1 + e2 + e3 + e4;
    FieldsOfOneField(e5, "password");
    KeptAcross(e1 + e2 + e3 + e4, e5, "salary");
    FieldsOfOneField(e6, "gender");
    KeptAcross(e1 + e2 + e3 + e4 + e5, e6, "salary");
    FieldsOfOneField(e7, "dob");
    KeptAcross(e1 + e2 + e3 + e4 + e5 + e6, e7, "salary");
    FieldsOfOneField(e8, "joinDate");
    KeptAcross(e1 + e2 + e3 + e4 + e5 + e6 + e7, e8, "salary");
    FieldsOfOneField(e9, "skills");
    KeptAcross(e1 + e2 + e3 + e4 + e5 + e6 + e7 + e8, e9, "salary");
  }

  /** A salary below 1000 is answered with the minimum-salary message under "salary". */
  lemma LowSalaryAnswer(dto: EmployeeRequest, today: Date, emailShaped: string -> bool)
    requires dto.salary.Some? && dto.salary.value < MIN_SALARY
    ensures "salary" in ErrorMap(FieldErrors(dto, today, emailShaped))
    ensures ErrorMap(FieldErrors(dto, today, emailShaped))["salary"] == SALARY_TOO_LOW
  {
    var errors := SalaryErrors(dto);
    SalaryAnswerFromOwnErrors(EmailErrors(dto, emailShaped), NameErrors(dto), DepartmentErrors(dto),
      errors, PasswordErrors(dto), GenderErrors(dto), DobErrors(dto, today),
      JoinDateErrors(dto, today), SkillsErrors(dto));
    assert errors[|errors| - 1] in errors;
  }

  /** A null or empty skills list is answered with the skills message under "skills". */
  lemma EmptySkillsAnswer(dto: EmployeeRequest, today: Date, emailShaped: string -> bool)
    requires dto.skills.None? || dto.skills.value == []
    ensures "skills" in ErrorMap(FieldErrors(dto, today, emailShaped))
    ensures ErrorMap(FieldErrors(dto, today, emailShaped))["skills"] == SKILLS_EMPTY
  {
    var before := EmailErrors(dto, emailShaped) + NameErrors(dto) + DepartmentErrors(dto)
                  + SalaryErrors(dto) + PasswordErrors(dto) + GenderErrors(dto)
                  + DobErrors(dto, today) + JoinDateErrors(dto, today);
    assert FieldErrors(dto, today, emailShaped) == before + SkillsErrors(dto) + [];
    AnswerForField(before, SkillsErrors(dto), [], "skills");
  }
}
