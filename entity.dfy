/** The persisted employee: a row value and the mutable entity object. */
module Entity {
  import opened Wrappers
  import opened Dto

  /** The state of one Employee entity: the id column and the nine writable columns. */
  datatype EmployeeRecord = EmployeeRecord(
    id: Option<int>,
    email: Option<string>,
    name: Option<string>,
    department: Option<string>,
    salary: Option<real>,
    password: Option<string>,
    gender: Option<string>,
    dob: Option<Date>,
    joinDate: Option<Date>,
    skills: Option<seq<string>>)
  {
    /** The nine columns a request writes, read back as a request. */
    function RequestFields(): EmployeeRequest {
      EmployeeRequest(email, name, department, salary, password, gender, dob, joinDate, skills)
    }
  }

  /** The Employee entity object, whose setters change it in place. */
  class Employee {
    var id: Option<int>
    var email: Option<string>
    var name: Option<string>
    var department: Option<string>
    var salary: Option<real>
    var password: Option<string>
    var gender: Option<string>
    var dob: Option<Date>
    var joinDate: Option<Date>
    var skills: Option<seq<string>>

    /** An entity object holding the given state (as the all-arguments constructor does). */
    constructor (r: EmployeeRecord)
      ensures Value() == r
    {
      id, email, name, department, salary := r.id, r.email, r.name, r.department, r.salary;
      password, gender, dob, joinDate, skills := r.password, r.gender, r.dob, r.joinDate, r.skills;
    }

    /** The current state of this object. */
    function Value(): EmployeeRecord
      reads this
    {
      EmployeeRecord(id, email, name, department, salary, password, gender, dob, joinDate, skills)
    }
  }
}
