/** The pending registration record (server/models/PendingRegistration.js):
    a sign-up waiting for approval. Its role enumeration leaves out admin. */
module PendingModel {
  import opened Basics
  import opened UserModel

  type PendingId = nat

  /** `enum: ["pending", "approved", "rejected"]` */
  datatype RegistrationStatus = Pending | Approved | Rejected

  datatype PendingRegistration = PendingRegistration(
    id: PendingId,
    username: string,
    email: string,
    password: string,
    role: Role,
    companyName: Option<string>,
    employerId: Option<UserId>,
    status: RegistrationStatus,
    createdAt: int)

  datatype PendingDraft = PendingDraft(
    username: Option<string>,
    email: Option<string>,
    password: Option<string>,
    role: Option<string>,
    companyName: Option<string>,
    employerId: Option<UserId>,
    status: Option<RegistrationStatus>)

  /** The schema's `enum: ["employer", "employee"]`. */
  function ParsePendingRole(s: string): (r: Option<Role>)
    ensures r.Some? <==> s == "employer" || s == "employee"
    ensures r.Some? ==> r == ParseRole(s) && r.value != Admin
  {
    if s == "employer" then Some(Employer)
    else if s == "employee" then Some(Employee)
    else None
  }

  /** A saved record: the `trim` setters ran on username and email, and the
      validators passed. */
  predicate PendingValid(p: PendingRegistration) {
    && p.username != "" && p.email != "" && p.password != ""
    && Trim(p.username) == p.username && Trim(p.email) == p.email
    && p.role != Admin
    && (p.role == Employer ==> Present(p.companyName))
    && (p.role == Employee ==> p.employerId.Some?)
  }

  /** Builds and validates `new PendingRegistration(d)`: username and email
      are trimmed, status defaults to pending, companyName is required for
      employers and employerId for employees. */
  function NewPending(d: PendingDraft, id: PendingId, now: int): (r: Result<PendingRegistration, string>)
    ensures r.Ok? <==>
      && d.role.Some? && ParsePendingRole(d.role.value).Some?
      && Filled(d.username) && Filled(d.email) && Present(d.password)
      && (d.role.value == "employer" ==> Present(d.companyName))
      && (d.role.value == "employee" ==> d.employerId.Some?)
    ensures r.Ok? ==>
      var p := r.value;
      && PendingValid(p)
      && p.id == id && p.createdAt == now
      && Some(p.role) == ParsePendingRole(d.role.value)
      && d.username.Some? && p.username == Trim(d.username.value)
      && d.email.Some? && p.email == Trim(d.email.value)
      && Some(p.password) == d.password
      && p.companyName == d.companyName && p.employerId == d.employerId
      && p.status == (if d.status.Some? then d.status.value else Pending)
  {
    var role := if d.role.Some? then ParsePendingRole(d.role.value) else None;
    if role.None? then Err("role: not one of employer, employee")
    else
      var p := PendingRegistration(
        id, Trim(d.username.GetOr("")), Trim(d.email.GetOr("")), d.password.GetOr(""),
        role.value, d.companyName, d.employerId, d.status.GetOr(Pending), now);
      TrimIdempotent(d.username.GetOr(""));
      TrimIdempotent(d.email.GetOr(""));
      if PendingValid(p) then Ok(p) else Err("a required path is missing")
  }
}
