/**
 * The wire shapes of an employee: the inbound request and the outbound response.
 * Every Java reference field may be null, so each field is an Option.
 */
module Dto {
  import opened Wrappers

  /** A LocalDate as a day number; LocalDate's order is the order of day numbers. */
  type Date = int

  /** EmployeeRequestDTO: the nine fields a client sends on create and update. */
  datatype EmployeeRequest = EmployeeRequest(
    email: Option<string>,
    name: Option<string>,
    department: Option<string>,
    salary: Option<real>,
    password: Option<string>,
    gender: Option<string>,
    dob: Option<Date>,
    joinDate: Option<Date>,
    skills: Option<seq<string>>)

  /**
   * EmployeeResponseDTO: the generated id and the non-sensitive fields.
   * It declares no email and no password field.
   */
  datatype EmployeeResponse = EmployeeResponse(
    id: Option<int>,
    name: Option<string>,
    department: Option<string>,
    salary: Option<real>,
    gender: Option<string>,
    dob: Option<Date>,
    joinDate: Option<Date>,
    skills: Option<seq<string>>)
}
