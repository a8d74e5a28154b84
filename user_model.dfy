/** The account record (server/models/User.js): its role enumeration, the
    fields required per role, the defaults applied when a record is built,
    the pre-validate hook that clears `employerId` for every role but
    employee, and the pre-save hook that hashes a plain password. */
module UserModel {
  import opened Basics

  type UserId = nat

  datatype Role = Admin | Employer | Employee

  function RoleName(r: Role): string {
    match r
    case Admin => "admin"
    case Employer => "employer"
    case Employee => "employee"
  }

  /** The schema's `enum: ["admin", "employer", "employee"]`. */
  function ParseRole(s: string): (r: Option<Role>)
    ensures r.None? <==> s != "admin" && s != "employer" && s != "employee"
  {
    if s == "admin" then Some(Admin)
    else if s == "employer" then Some(Employer)
    else if s == "employee" then Some(Employee)
    else None
  }

  /** The role names and the enumeration are in one-to-one correspondence. */
  lemma RoleNameRoundTrip(r: Role, s: string)
    ensures ParseRole(RoleName(r)) == Some(r)
    ensures ParseRole(s) == Some(r) ==> s == RoleName(r)
  {
  }

  /** A stored account. `carbonCredits` is always a number: the schema's
      default 0 is applied whenever a record is built or loaded. */
  datatype User = User(
    id: UserId,
    username: string,
    email: string,
    password: string,
    role: Role,
    companyName: Option<string>,
    employerId: Option<UserId>,
    carbonCredits: real,
    isApproved: bool,
    createdAt: int)

  /** The authenticated caller, as the token's payload `{ id, role }` carries it. */
  datatype Caller = Caller(id: UserId, role: Role)

  /** The fields handed to `new User({...})`; a missing field is None. */
  datatype UserDraft = UserDraft(
    username: Option<string>,
    email: Option<string>,
    password: Option<string>,
    role: Option<string>,
    companyName: Option<string>,
    employerId: Option<UserId>,
    carbonCredits: Option<real>,
    isApproved: Option<bool>)

  /** Mongoose's `required` on a string path: present and not empty. */
  predicate Present(s: Option<string>) {
    s.Some? && s.value != ""
  }

  /** `required` on a path with the `trim` setter, which runs first: present
      and not blank once trimmed. */
  predicate Filled(s: Option<string>) {
    s.Some? && Trim(s.value) != ""
  }

  /** The email path's setters, `trim` and then `lowercase`. Mongoose casts
      a query value on the path through them too. */
  function NormalizeEmail(s: string): string {
    LowerAscii(Trim(s))
  }

  /** The schema's validators: required strings, companyName required for
      employers, employerId required for employees. */
  predicate SchemaValid(u: User) {
    && u.username != ""
    && u.email != ""
    && u.password != ""
    && (u.role == Employer ==> Present(u.companyName))
    && (u.role == Employee ==> u.employerId.Some?)
  }

  /** A saved record: it passed validation after the pre-validate hook. */
  predicate UserValid(u: User) {
    SchemaValid(u) && (u.role != Employee ==> u.employerId.None?)
  }

  /** Builds and validates the record `new User(d)` would save under the
      fresh id `id` at time `now`: defaults first (carbonCredits 0,
      isApproved only for admin), then the pre-validate hook, then the
      validators. The setters trim the username and trim and lower-case the
      email before `required` looks at them. */
  function NewUser(d: UserDraft, id: UserId, now: int): (r: Result<User, string>)
    ensures r.Ok? <==>
      && d.role.Some? && ParseRole(d.role.value).Some?
      && Filled(d.username) && Filled(d.email) && Present(d.password)
      && (ParseRole(d.role.value) == Some(Employer) ==> Present(d.companyName))
      && (ParseRole(d.role.value) == Some(Employee) ==> d.employerId.Some?)
    ensures r.Ok? ==>
      var u := r.value;
      && UserValid(u)
      && u.id == id && u.createdAt == now
      && Some(u.role) == ParseRole(d.role.value)
      && d.username.Some? && u.username == Trim(d.username.value) && Trim(u.username) == u.username
      && d.email.Some? && u.email == NormalizeEmail(d.email.value)
      && Some(u.password) == d.password && u.companyName == d.companyName
      && u.carbonCredits == (if d.carbonCredits.Some? then d.carbonCredits.value else 0.0)
      && u.isApproved == (if d.isApproved.Some? then d.isApproved.value else u.role == Admin)
      && u.employerId == (if u.role == Employee then d.employerId else None)
  {
    var role := if d.role.Some? then ParseRole(d.role.value) else None;
    if role.None? then Err("role: not one of admin, employer, employee")
    else
      var u := User(
        id,
        Trim(d.username.GetOr("")),
        NormalizeEmail(d.email.GetOr("")),
        d.password.GetOr(""),
        role.value,
        d.companyName,
        if role.value == Employee then d.employerId else None,
        d.carbonCredits.GetOr(0.0),
        d.isApproved.GetOr(role.value == Admin),
        now);
      TrimIdempotent(d.username.GetOr(""));
      if SchemaValid(u) then Ok(u) else Err("a required path is missing")
  }

  predicate StartsWith(s: string, prefix: string) {
    |prefix| <= |s| && s[..|prefix|] == prefix
  }

  /** A password already in bcrypt form, which the pre-save hook leaves alone. */
  predicate LooksHashed(p: string) {
    StartsWith(p, "$2a$") || StartsWith(p, "$2b$")
  }

  /** The pre-save hook. `hashed` is what bcrypt makes of `password` (bcrypt
      itself is not modelled). */
  function PreSavePassword(password: string, modified: bool, hashed: string): (r: string)
    ensures !modified || LooksHashed(password) ==> r == password
    ensures modified && !LooksHashed(password) ==> r == hashed
  {
    if !modified || LooksHashed(password) then password else hashed
  }

  /** Once the hook has produced a bcrypt-form password, saving again never
      hashes it a second time, whatever bcrypt would return. */
  lemma PreSaveIdempotent(password: string, hashed: string, again: bool, hashed2: string)
    requires LooksHashed(hashed)
    ensures var p := PreSavePassword(password, true, hashed);
            PreSavePassword(p, again, hashed2) == p
  {
  }
}
