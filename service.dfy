/** EmployeeService: create, read, update and delete over the employee table. */
module Service {
  import opened Wrappers
  import opened Dto
  import opened Entity
  import opened Mapper
  import opened Exceptions
  import opened Repository

  /** One welcome message handed to the mail transport. */
  datatype Mail = Mail(to: string, subject: string, body: string)

  const WELCOME_SUBJECT := "Welcome to Gevernova!"

  /** Java's string concatenation of a possibly null string: null reads "null". */
  function Text(s: Option<string>): string {
    if s.None? then "null" else s.value
  }

  /** The body of the welcome mail, greeting the saved name. */
  function WelcomeBody(name: Option<string>): string {
    "Hi " + Text(name) + ", your employee account has been successfully created."
  }

  /** The welcome mails a create sends for the saved entity: one when its email is non-null and non-empty. */
  function WelcomeMails(saved: EmployeeRecord): (mails: seq<Mail>)
    ensures |mails| <= 1
    ensures mails != [] <==> saved.email.Some? && saved.email.value != ""
    ensures mails != [] ==> mails[0].to == saved.email.value && mails[0].subject == WELCOME_SUBJECT
  {
    if saved.email.Some? && |saved.email.value| > 0 then
      [Mail(saved.email.value, WELCOME_SUBJECT, WelcomeBody(saved.name))]
    else []
  }

  /**
   * The mail transport. Every attempt is recorded in `outbox`; while
   * `transportDown` holds, an attempt fails (a MessagingException).
   */
  class EmailService {
    var outbox: seq<Mail>
    var transportDown: bool

    constructor (transportDown: bool)
      ensures outbox == [] && this.transportDown == transportDown
    {
      outbox := [];
      this.transportDown := transportDown;
    }

    /** sendEmail: attempts the message; `failed` stands for a thrown MessagingException. */
    method SendEmail(to: string, subject: string, body: string) returns (failed: bool)
      modifies this`outbox
      ensures outbox == old(outbox) + [Mail(to, subject, body)]
      ensures failed == transportDown
    {
      outbox := outbox + [Mail(to, subject, body)];
      failed := transportDown;
    }
  }

  class EmployeeService {
    const repo: EmployeeRepository
    const emailService: EmailService

    constructor (repo: EmployeeRepository, emailService: EmailService)
      ensures this.repo == repo && this.emailService == emailService
    {
      this.repo := repo;
      this.emailService := emailService;
    }

    /**
     * getEmployeeId: the response for the stored row, or the not-found error with the
     * message "Employee not found with id: " followed by the id.
     */
    function GetEmployeeId(id: int): (r: Result<EmployeeResponse, ServiceException>)
      requires repo.Valid()
      reads repo
      ensures r.Success? <==> id in repo.rows
      ensures r.Success? ==> Some(r.value) == MapToDTO(Some(repo.rows[id])) && r.value.id == Some(id)
      ensures r.Failure? ==> r.error == UserNotFound(NotFoundMessage(id))
    {
      if id in repo.rows then Success(MapToDTO(Some(repo.rows[id])).value)
      else Failure(UserNotFound(NotFoundMessage(id)))
    }

    /** getAllEmployees: one response per stored row, in the repository's order. */
    function GetAllEmployees(): (r: seq<EmployeeResponse>)
      requires repo.Valid()
      reads repo
      ensures |r| == |repo.rows| == |repo.order|
      ensures forall i | 0 <= i < |r| ::
        r[i].id == Some(repo.order[i]) && GetEmployeeId(repo.order[i]) == Success(r[i])
    {
      var all := repo.FindAll();
      seq(|all|, i requires 0 <= i < |all| => MapToDTO(Some(all[i])).value)
    }

    /**
     * createEmployee: saves the mapped request under a fresh id, then sends the
     * welcome mail when the saved email is non-empty; a failed mail is swallowed.
     */
    method CreateEmployee(dto: EmployeeRequest) returns (r: Result<EmployeeResponse, ServiceException>)
      requires repo.Valid()
      modifies repo, emailService
      ensures repo.Valid()
      ensures repo.calls == old(repo.calls) + [Save(None)]
      ensures r.Failure? <==> old(repo.Rejects(MapToEntity(Some(dto)).value))
      ensures r.Failure? ==>
        && r.error == DataIntegrityViolation
        && repo.rows == old(repo.rows) && repo.order == old(repo.order) && repo.nextId == old(repo.nextId)
        && emailService.outbox == old(emailService.outbox)
      ensures r.Success? ==>
        var id := old(repo.nextId);
        var saved := MapToEntity(Some(dto)).value.(id := Some(id));
        && id !in old(repo.rows)
        && repo.rows == old(repo.rows)[id := saved]
        && repo.order == old(repo.order) + [id]
        && repo.nextId == id + 1
        && Some(r.value) == MapToDTO(Some(saved))
        && GetEmployeeId(id) == r
        && emailService.outbox == old(emailService.outbox) + WelcomeMails(saved)
      ensures emailService.transportDown == old(emailService.transportDown)
    {
      var employee := MapToEntity(Some(dto)).value;
      var saved := repo.Save(employee);
      if saved.Failure? {
        return Failure(saved.error);
      }
      var email := saved.value.email;
      if email.Some? && |email.value| > 0 {
        var failed := emailService.SendEmail(email.value, WELCOME_SUBJECT, WelcomeBody(saved.value.name));
        // A failed attempt is only logged: the create goes on.
      }
      r := Success(MapToDTO(Some(saved.value)).value);
    }

    /**
     * updateEmployee: looks the row up first; a missing id is the not-found error and
     * nothing is written. Otherwise the fetched entity is overwritten in place and saved.
     */
    method UpdateEmployee(id: int, dto: EmployeeRequest) returns (r: Result<EmployeeResponse, ServiceException>)
      requires repo.Valid()
      modifies repo
      ensures repo.Valid()
      ensures id !in old(repo.rows) ==>
        && r == Failure(UserNotFound(NotFoundMessage(id)))
        && repo.calls == old(repo.calls) + [FindById(id)]
        && repo.rows == old(repo.rows) && repo.order == old(repo.order) && repo.nextId == old(repo.nextId)
      ensures id in old(repo.rows) ==>
        repo.calls == old(repo.calls) + [FindById(id), Save(Some(id))]
      ensures id in old(repo.rows) ==>
        (r.Failure? <==> old(repo.Rejects(Overwritten(repo.rows[id], dto))))
      ensures id in old(repo.rows) && r.Failure? ==>
        && r.error == DataIntegrityViolation
        && repo.rows == old(repo.rows) && repo.order == old(repo.order) && repo.nextId == old(repo.nextId)
      ensures id in old(repo.rows) && r.Success? ==>
        var updated := Overwritten(old(repo.rows)[id], dto);
        && repo.rows == old(repo.rows)[id := updated]
        && repo.order == old(repo.order) && repo.nextId == old(repo.nextId)
        && Some(r.value) == MapToDTO(Some(updated))
        && GetEmployeeId(id) == r
    {
      var found := repo.FindById(id);
      if found.None? {
        return Failure(UserNotFound(NotFoundMessage(id)));
      }
      var existing := found.value;
      UpdateEntity(existing, dto);
      var updated := repo.Save(existing.Value());
      if updated.Failure? {
        return Failure(updated.error);
      }
      r := Success(MapToDTO(Some(updated.value)).value);
    }

    /**
     * deleteEmployee: checks existence first; a missing id is the not-found error and
     * no delete is issued. Otherwise exactly that row is removed.
     */
    method DeleteEmployee(id: int) returns (r: Result<(), ServiceException>)
      requires repo.Valid()
      modifies repo
      ensures repo.Valid()
      ensures id !in old(repo.rows) ==>
        && r == Failure(UserNotFound(NotFoundMessage(id)))
        && repo.calls == old(repo.calls) + [ExistsById(id)]
        && repo.rows == old(repo.rows) && repo.order == old(repo.order) && repo.nextId == old(repo.nextId)
      ensures id in old(repo.rows) ==>
        && r == Success(())
        && repo.calls == old(repo.calls) + [ExistsById(id), DeleteById(id)]
        && repo.rows.Keys == old(repo.rows).Keys - {id}
        && (forall k | k in repo.rows :: repo.rows[k] == old(repo.rows)[k])
        && repo.order == Without(old(repo.order), id)
        && CutOut(old(repo.order), repo.order, id)
        && repo.nextId == old(repo.nextId)
    {
      var present := repo.ExistsById(id);
      if !present {
        return Failure(UserNotFound(NotFoundMessage(id)));
      }
      ghost var rows0 := repo.rows;
      repo.DeleteById(id);
      assert repo.rows == rows0 - {id};
      r := Success(());
    }
  }
}
