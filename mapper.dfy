/** EmployeeMapper: conversions between request, entity and response. */
module Mapper {
  import opened Wrappers
  import opened Dto
  import opened Entity

  /** mapToEntity: a new entity with no id carrying the request's nine fields; null gives null. */
  function MapToEntity(dto: Option<EmployeeRequest>): (e: Option<EmployeeRecord>)
    ensures e.None? <==> dto.None?
    ensures dto.Some? ==> e.value.id == None && e.value.RequestFields() == dto.value
  {
    match dto
    case None => None
    case Some(d) =>
      Some(EmployeeRecord(None, d.email, d.name, d.department, d.salary, d.password,
                          d.gender, d.dob, d.joinDate, d.skills))
  }

  /**
   * mapToDTO: the response for an entity; null gives null.
   * EmployeeMapper.java also sets an email on the response builder, but
   * EmployeeResponseDTO declares no email field; this model follows the declaration,
   * so the response carries neither email nor password.
   */
  function MapToDTO(employee: Option<EmployeeRecord>): (r: Option<EmployeeResponse>)
    ensures r.None? <==> employee.None?
    ensures employee.Some? ==>
      && r.value.id == employee.value.id
      && r.value.name == employee.value.name
      && r.value.department == employee.value.department
      && r.value.salary == employee.value.salary
      && r.value.gender == employee.value.gender
      && r.value.dob == employee.value.dob
      && r.value.joinDate == employee.value.joinDate
      && r.value.skills == employee.value.skills
  {
    match employee
    case None => None
    case Some(e) =>
      Some(EmployeeResponse(e.id, e.name, e.department, e.salary, e.gender, e.dob,
                            e.joinDate, e.skills))
  }

  /** The two entities agree on every field a response shows. */
  predicate SamePublicFields(a: EmployeeRecord, b: EmployeeRecord) {
    && a.id == b.id && a.name == b.name && a.department == b.department
    && a.salary == b.salary && a.gender == b.gender && a.dob == b.dob
    && a.joinDate == b.joinDate && a.skills == b.skills
  }

  /** Two entities get the same response exactly when they agree on id and the public fields. */
  lemma MapToDTOSeesPublicFieldsOnly(a: EmployeeRecord, b: EmployeeRecord)
    ensures MapToDTO(Some(a)) == MapToDTO(Some(b)) <==> SamePublicFields(a, b)
  {
  }

  /** The response never depends on the stored password (nor on the email). */
  lemma PasswordNeverReachesResponse(e: EmployeeRecord, password: Option<string>, email: Option<string>)
    ensures MapToDTO(Some(e.(password := password, email := email))) == MapToDTO(Some(e))
  {
  }

  /** The state updateEntity leaves: the request's nine fields over the entity's own id. */
  function Overwritten(e: EmployeeRecord, dto: EmployeeRequest): (r: EmployeeRecord)
    ensures r.id == e.id
    ensures r.RequestFields() == dto
  {
    e.(email := dto.email, name := dto.name, department := dto.department, salary := dto.salary,
       password := dto.password, gender := dto.gender, dob := dto.dob, joinDate := dto.joinDate,
       skills := dto.skills)
  }

  /** updateEntity: overwrite the nine fields of the entity in place, one setter at a time. */
  method UpdateEntity(employee: Employee, dto: EmployeeRequest)
    modifies employee
    ensures employee.Value() == Overwritten(old(employee.Value()), dto)
  {
    employee.email := dto.email;
    employee.name := dto.name;
    employee.department := dto.department;
    employee.salary := dto.salary;
    employee.password := dto.password;
    employee.gender := dto.gender;
    employee.dob := dto.dob;
    employee.joinDate := dto.joinDate;
    employee.skills := dto.skills;
  }

  /** Applying the same request twice leaves the same entity as applying it once. */
  lemma OverwriteIdempotent(e: EmployeeRecord, dto: EmployeeRequest)
    ensures Overwritten(Overwritten(e, dto), dto) == Overwritten(e, dto)
  {
  }

  /** An update is a full replace: the entity a create would build, under the old id. */
  lemma OverwriteIsMappedRequest(e: EmployeeRecord, dto: EmployeeRequest)
    ensures Overwritten(e, dto) == MapToEntity(Some(dto)).value.(id := e.id)
  {
  }

  /** The response after an update is the response of the mapped request, with the old id. */
  lemma ResponseAfterUpdate(e: EmployeeRecord, dto: EmployeeRequest)
    ensures MapToDTO(Some(Overwritten(e, dto)))
         == Some(MapToDTO(MapToEntity(Some(dto))).value.(id := e.id))
  {
  }
}
