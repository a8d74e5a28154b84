/** The account routes (server/routes/auth.js): sign-up into a pending
    registration, the login gate, approval and rejection of pending
    registrations by an admin or by the employer, the commute-logging route
    with its credit rule, and account deletion. The authenticated caller is
    the token payload `{ id, role }`; bcrypt and JWT are inputs. */
module AuthRoutes {
  import opened Basics
  import opened UserModel
  import opened CommuteModel
  import PM = PendingModel
  import opened Accounts
  import opened Store

  /** The route's responses other than success, one per message. */
  datatype AuthError =
    | FieldsRequired      // 400: a required body field is missing or empty
    | InvalidEmail        // 400: the address does not match the pattern
    | PasswordTooShort    // 400: fewer than 6 characters
    | UserExists          // 400: an account already has the address
    | PendingExists       // 400: a pending registration already has the address
    | InvalidRole         // 400: not employer, employee or admin
    | AdminAuthRequired   // 403: admin sign-up without an authorization header
    | NotAdmin            // 403: the caller is not an admin
    | InvalidToken        // 403: the admin sign-up token does not verify
    | CompanyRequired     // 400: employer without companyName
    | EmployerRequired    // 400: employee without employerId
    | SaveFailed          // 500: schema validation or the unique email index rejected the save
    | InvalidCredentials  // 400: no such account, or the password does not match
    | PendingApproval     // 403: the account is not approved yet
    | ApproverRequired    // 400: approvedBy / rejectedBy missing from the body
    | NotTheEmployer      // 403: the caller is not the employer named by approvedBy
    | PendingNotFound     // 404
    | OtherCompany        // 403: the pending employee chose another employer
    | ServerError         // 500: the pending record has no employerId to compare
    | UserNotFound        // 404
    | NotAuthorized       // 403: neither an admin nor the account's employer

  // ------------------------------------------------------------ POST /register

  /** A character of the class `[^\s@]`. */
  predicate Plain(c: char) {
    !IsSpace(c) && c != '@'
  }

  /** `/^[^\s@]+@[^\s@]+\.[^\s@]+$/`: one `@` at `i` with a non-empty run
      before it, a `.` at `k` with a non-empty run between them and after it,
      and no other `@` and no white space anywhere. */
  predicate EmailPattern(s: string): (r: bool)
    ensures r ==> |s| >= 5 && '@' in s && !IsSpace(s[0]) && !IsSpace(s[|s| - 1])
  {
    exists i, k :: 0 < i < |s| && i + 1 < k < |s| - 1 && s[i] == '@' && s[k] == '.'
      && forall j :: 0 <= j < |s| && j != i ==> Plain(s[j])
  }

  lemma EmailPatternExamples()
    ensures EmailPattern("ann@acme.io")
    ensures EmailPattern("a@b.c.d")
    ensures !EmailPattern("ann@acme")
    ensures !EmailPattern("@acme.io")
    ensures !EmailPattern("ann@.io")
    ensures !EmailPattern("ann@acme.")
    ensures !EmailPattern("a@b@c.d")
    ensures !EmailPattern("a b@c.d")
  {
    var s := "ann@acme.io";
    assert s[3] == '@' && s[8] == '.';
    assert forall j :: 0 <= j < |s| && j != 3 ==> Plain(s[j]);
    var t := "a@b.c.d";
    assert t[1] == '@' && t[3] == '.';
    assert forall j :: 0 <= j < |t| && j != 1 ==> Plain(t[j]);
    var u := "a@b@c.d";
    assert u[1] == '@' && u[3] == '@';
    var w := "a b@c.d";
    assert w[1] == ' ';
  }

  /** The sign-up body; a missing field is None. */
  datatype RegisterRequest = RegisterRequest(
    username: Option<string>,
    email: Option<string>,
    password: Option<string>,
    role: Option<string>,
    companyName: Option<string>,
    employerId: Option<UserId>)

  /** The authorization header of an admin sign-up: absent, carrying a token
      that does not verify, or carrying a verified token for account `id`. */
  datatype AdminAuth = NoHeader | BadToken | Token(id: UserId)

  /** An account stores the address `stored`: what the unique index on
      email refuses to save twice. */
  predicate EmailInUse(users: seq<User>, stored: string) {
    exists i :: 0 <= i < |users| && users[i].email == stored
  }

  /** `User.findOne({ email })` finds an account; the query value is cast
      through the email path's setters first. */
  predicate EmailTaken(users: seq<User>, email: string) {
    EmailInUse(users, NormalizeEmail(email))
  }

  /** `PendingRegistration.findOne({ email })` finds a record; the query
      value is trimmed first. */
  predicate EmailPending(pending: seq<PM.PendingRegistration>, email: string) {
    exists i :: 0 <= i < |pending| && pending[i].email == Trim(email)
  }

  /** The four fields every sign-up needs, each truthy. */
  predicate Submitted(q: RegisterRequest) {
    Present(q.username) && Present(q.email) && Present(q.password) && Present(q.role)
  }

  /** The checks on the submitted text: address pattern and password length. */
  predicate WellFormed(q: RegisterRequest) {
    Submitted(q) && EmailPattern(q.email.value) && |q.password.value| >= 6
  }

  /** The address is used neither by an account nor by a pending registration. */
  predicate Unclaimed(users: seq<User>, pending: seq<PM.PendingRegistration>, email: string) {
    !EmailTaken(users, email) && !EmailPending(pending, email)
  }

  /** The per-role field: companyName for employers, employerId for employees. */
  predicate RoleFieldGiven(q: RegisterRequest)
    requires Submitted(q)
  {
    && (q.role.value == "employer" ==> Present(q.companyName))
    && (q.role.value == "employee" ==> q.employerId.Some?)
  }

  /** The admin sign-up gate: a header is required, its token must verify,
      and the token's account must exist and be an admin. */
  function AdminGate(users: seq<User>, auth: AdminAuth): (r: Result<Unit, AuthError>)
    ensures r.Ok? <==> auth.Token? && UserIndex(users, auth.id).Some? && users[UserIndex(users, auth.id).value].role == Admin
    ensures auth.NoHeader? ==> r == Err(AdminAuthRequired)
    ensures auth.BadToken? ==> r == Err(InvalidToken)
    ensures auth.Token? && r.Err? ==> r == Err(NotAdmin)
  {
    match auth
    case NoHeader => Err(AdminAuthRequired)
    case BadToken => Err(InvalidToken)
    case Token(id) =>
      match UserIndex(users, id)
      case None => Err(NotAdmin)
      case Some(i) => if users[i].role == Admin then Ok(Unit) else Err(NotAdmin)
  }

  /** The record `new PendingRegistration(pendingData)` is built from:
      the hashed password, status pending, companyName only for an employer
      and employerId only for an employee. */
  function PendingData(q: RegisterRequest, hashed: string): (r: PM.PendingDraft)
    requires Submitted(q)
    ensures r.username == q.username && r.email == q.email && r.role == q.role
    ensures r.password == Some(hashed) && r.status == Some(PM.Pending)
    ensures r.companyName.Some? ==> q.role == Some("employer") && r.companyName == q.companyName
    ensures r.employerId.Some? ==> q.role == Some("employee") && r.employerId == q.employerId
    ensures q.role == Some("employer") ==> r.companyName == q.companyName && r.employerId.None?
    ensures q.role == Some("employee") ==> r.employerId == q.employerId && r.companyName.None?
  {
    var role := q.role.value;
    PM.PendingDraft(q.username, q.email, Some(hashed), q.role,
                    if role == "employer" then q.companyName else None,
                    if role == "employee" then q.employerId else None,
                    Some(PM.Pending))
  }

  /** The sign-up route up to the save, under the fresh id `id`: each check in
      the route's order, then the schema's validation of the record.
      `hashed` is what bcrypt makes of the password. */
  function RegisterDecision(users: seq<User>, pending: seq<PM.PendingRegistration>, q: RegisterRequest,
                            auth: AdminAuth, hashed: string, id: nat, now: int): (r: Result<PM.PendingRegistration, AuthError>)
    ensures r.Ok? ==>
      && WellFormed(q) && Unclaimed(users, pending, q.email.value) && RoleFieldGiven(q)
      && PM.PendingValid(r.value) && r.value.id == id && r.value.createdAt == now
      && r.value.status == PM.Pending && r.value.password == hashed
      && r.value.username == Trim(q.username.value) && r.value.email == q.email.value
      && q.role.value == RoleName(r.value.role) && r.value.role != Admin
      && (r.value.role == Employer ==> r.value.companyName == q.companyName && r.value.employerId.None?)
      && (r.value.role == Employee ==> r.value.employerId == q.employerId && r.value.companyName.None?)
    ensures !Submitted(q) ==> r == Err(FieldsRequired)
    ensures Submitted(q) && !WellFormed(q) ==> r == Err(InvalidEmail) || r == Err(PasswordTooShort)
    ensures WellFormed(q) && EmailTaken(users, q.email.value) ==> r == Err(UserExists)
  {
    if !Submitted(q) then Err(FieldsRequired)
    else
      var email, password, role := q.email.value, q.password.value, q.role.value;
      if !EmailPattern(email) then Err(InvalidEmail)
      else if |password| < 6 then Err(PasswordTooShort)
      else if EmailTaken(users, email) then Err(UserExists)
      else if EmailPending(pending, email) then Err(PendingExists)
      else if ParseRole(role).None? then Err(InvalidRole)
      else if role == "admin" && AdminGate(users, auth).Err? then Err(AdminGate(users, auth).error)
      else if role == "employer" && !Present(q.companyName) then Err(CompanyRequired)
      else if role == "employee" && q.employerId.None? then Err(EmployerRequired)
      else
        TrimTrimmed(email);
        match PM.NewPending(PendingData(q, hashed), id, now)
        case Err(_) => Err(SaveFailed)
        case Ok(p) => Ok(p)
  }

  /** A sign-up that passes every check for an employer or an employee, with
      a username that is not blank once trimmed and a non-empty hash, is
      saved. */
  lemma RegisterAccepts(users: seq<User>, pending: seq<PM.PendingRegistration>, q: RegisterRequest,
                        auth: AdminAuth, hashed: string, id: nat, now: int)
    requires WellFormed(q) && Unclaimed(users, pending, q.email.value) && RoleFieldGiven(q)
    requires q.role.value == "employer" || q.role.value == "employee"
    requires Trim(q.username.value) != "" && hashed != ""
    ensures RegisterDecision(users, pending, q, auth, hashed, id, now).Ok?
  {
    TrimTrimmed(q.email.value);
    var d := PendingData(q, hashed);
    assert Filled(d.username) && Filled(d.email) && Present(d.password);
    assert PM.NewPending(d, id, now).Ok?;
    assert EmailPattern(q.email.value) && |q.password.value| >= 6;
    assert ParseRole(q.role.value).Some? && q.role.value != "admin";
  }

  /** A username of white space only passes the route's `!username` test,
      but the schema trims it to "" and then refuses the save. */
  lemma BlankUsernameSaveFails(users: seq<User>, pending: seq<PM.PendingRegistration>, q: RegisterRequest,
                               auth: AdminAuth, hashed: string, id: nat, now: int)
    requires WellFormed(q) && Unclaimed(users, pending, q.email.value) && RoleFieldGiven(q)
    requires q.role.value == "employer" || q.role.value == "employee"
    requires Trim(q.username.value) == ""
    ensures RegisterDecision(users, pending, q, auth, hashed, id, now) == Err(SaveFailed)
  {
  }

  /** For instance, an employer signing up as "   " gets the save error. */
  lemma BlankUsernameExample(hashed: string)
    ensures var q := RegisterRequest(Some("   "), Some("ann@acme.io"), Some("secret1"), Some("employer"),
                                     Some("Acme"), None);
      RegisterDecision([], [], q, NoHeader, hashed, 0, 0) == Err(SaveFailed)
  {
    var q := RegisterRequest(Some("   "), Some("ann@acme.io"), Some("secret1"), Some("employer"), Some("Acme"), None);
    EmailPatternExamples();
    assert Trim("   ") == "" by {
      assert TrimStart("   ") == "";
    }
    BlankUsernameSaveFails([], [], q, NoHeader, hashed, 0, 0);
  }

  /** No admin is ever created by sign-up: the route lets an admin-authorised
      request through, but the pending record's role enumeration has no admin,
      so the save fails. */
  lemma AdminSignUpNeverSaved(users: seq<User>, pending: seq<PM.PendingRegistration>, q: RegisterRequest,
                              auth: AdminAuth, hashed: string, id: nat, now: int)
    requires q.role == Some("admin")
    ensures var r := RegisterDecision(users, pending, q, auth, hashed, id, now);
      r.Err? && (WellFormed(q) && Unclaimed(users, pending, q.email.value) ==> r.error != InvalidRole)
  {
  }

  /** The admin gate decides an otherwise acceptable admin sign-up: without
      it the route answers 403, with it the request reaches the save and
      fails there. */
  lemma AdminSignUpGate(users: seq<User>, pending: seq<PM.PendingRegistration>, q: RegisterRequest,
                        auth: AdminAuth, hashed: string, id: nat, now: int)
    requires WellFormed(q) && Unclaimed(users, pending, q.email.value) && q.role == Some("admin")
    ensures var r := RegisterDecision(users, pending, q, auth, hashed, id, now);
      && (AdminGate(users, auth).Err? ==> r == Err(AdminGate(users, auth).error))
      && (AdminGate(users, auth).Ok? ==> r == Err(SaveFailed))
  {
  }

  /** `POST /register`: saves the pending registration under a fresh id. */
  method Register(db: Database, q: RegisterRequest, auth: AdminAuth, hashed: string, now: int)
    returns (r: Result<PM.PendingRegistration, AuthError>)
    requires db.Valid()
    modifies db
    ensures db.Valid()
    ensures r == RegisterDecision(old(db.users), old(db.pending), q, auth, hashed, old(db.nextId), now)
    ensures db.users == old(db.users) && db.trades == old(db.trades) && db.commutes == old(db.commutes)
    ensures r.Ok? ==> db.pending == old(db.pending) + [r.value] && db.nextId == old(db.nextId) + 1
    ensures r.Err? ==> db.pending == old(db.pending) && db.nextId == old(db.nextId)
  {
    r := RegisterDecision(db.users, db.pending, q, auth, hashed, db.nextId, now);
    if r.Err? {
      return;
    }
    var id := db.FreshId();
    db.pending := db.pending + [r.value];
    KeysBelowAppend(old(db.pending), (p: PM.PendingRegistration) => p.id, id, r.value);
  }

  /** The address a successful sign-up used is claimed afterwards: the same
      sign-up again is refused. */
  lemma RegisterTwiceRefused(users: seq<User>, pending: seq<PM.PendingRegistration>, q: RegisterRequest,
                             auth: AdminAuth, hashed: string, id: nat, now: int, auth2: AdminAuth,
                             hashed2: string, id2: nat, later: int)
    requires RegisterDecision(users, pending, q, auth, hashed, id, now).Ok?
    ensures var p := RegisterDecision(users, pending, q, auth, hashed, id, now).value;
      RegisterDecision(users, pending + [p], q, auth2, hashed2, id2, later) == Err(PendingExists)
  {
    var p := RegisterDecision(users, pending, q, auth, hashed, id, now).value;
    assert (pending + [p])[|pending|] == p;
  }

  // --------------------------------------------------------------- POST /login

  datatype LoginRequest = LoginRequest(email: Option<string>, password: Option<string>)

  /** `POST /login`. `found` is the account the case-insensitive address
      lookup returns and `passwordMatches` bcrypt's comparison; the result is
      the payload the signed token carries. */
  function Login(q: LoginRequest, found: Option<User>, passwordMatches: bool): (r: Result<Caller, AuthError>)
    ensures r.Ok? <==> Present(q.email) && Present(q.password) && found.Some? && passwordMatches
                       && (found.value.isApproved || found.value.role == Admin)
    ensures r.Ok? ==> r.value == Caller(found.value.id, found.value.role)
    ensures r == Err(InvalidCredentials) <==>
      Present(q.email) && Present(q.password) && (found.None? || !passwordMatches)
    ensures r == Err(PendingApproval) <==>
      Present(q.email) && Present(q.password) && found.Some? && passwordMatches
      && !found.value.isApproved && found.value.role != Admin
  {
    if !Present(q.email) || !Present(q.password) then Err(FieldsRequired)
    else if found.None? then Err(InvalidCredentials)
    else if !passwordMatches then Err(InvalidCredentials)
    else if !found.value.isApproved && found.value.role != Admin then Err(PendingApproval)
    else Ok(Caller(found.value.id, found.value.role))
  }

  /** An account built with the schema defaults can sign in only if it is an
      admin: employers and employees wait for approval. */
  lemma DefaultAccountsWait(d: UserDraft, id: UserId, now: int, q: LoginRequest)
    requires d.isApproved.None? && NewUser(d, id, now).Ok?
    requires Present(q.email) && Present(q.password)
    ensures var u := NewUser(d, id, now).value;
      Login(q, Some(u), true).Ok? <==> u.role == Admin
  {
  }

  // -------------------------------------------------- POST /users/:id/commutes

  /** The commute-logging body; a missing field is None. */
  datatype LogRequest = LogRequest(
    transport: Option<string>,
    startLocation: Option<string>,
    endLocation: Option<string>,
    distanceKm: Option<real>)

  /** `method`, both locations and a non-zero distance. */
  predicate LogFieldsGiven(q: LogRequest) {
    Present(q.transport) && Present(q.startLocation) && Present(q.endLocation)
    && q.distanceKm.Some? && q.distanceKm.value != 0.0
  }

  /** `Math.floor(carbonSaved / 5)`: one credit per whole 5 kg saved. */
  function LogCredits(carbonSaved: real): (r: int)
    ensures 5.0 * r as real <= carbonSaved < 5.0 * (r + 1) as real
    ensures r > 0 <==> carbonSaved >= 5.0
  {
    MathFloor(carbonSaved / 5.0)
  }

  /** The `$inc` the route applies when the credits earned are positive; a
      balance of a missing account is untouched. */
  function CreditOnLog(users: seq<User>, employee: UserId, credits: int): (r: seq<User>)
    ensures SameAccounts(r, users)
    ensures TotalCredits(r) == TotalCredits(users) + (if credits > 0 && UserIndex(users, employee).Some? then credits as real else 0.0)
    ensures forall i :: 0 <= i < |users| ==> r[i].carbonCredits >= users[i].carbonCredits
  {
    if credits > 0 then
      AddCreditsTotal(users, employee, credits as real);
      AddCredits(users, employee, credits as real)
    else users
  }

  datatype LogReceipt = LogReceipt(commute: Commute, creditsEarned: int)

  /** The route as written: it builds the commute from the body without a
      date and without carbonSaved, both of which the schema requires, so the
      save always throws and the credit rule after it is never reached. */
  function LogCommute(users: seq<User>, employee: UserId, q: LogRequest, id: nat, now: int)
    : (r: Result<(seq<User>, LogReceipt), AuthError>)
    ensures r.Err?
    ensures r == Err(FieldsRequired) <==> !LogFieldsGiven(q)
    ensures LogFieldsGiven(q) ==> r == Err(SaveFailed)
  {
    if !LogFieldsGiven(q) then Err(FieldsRequired)
    else
      var draft := CommuteDraft(Some(employee), None, q.transport, q.startLocation, q.endLocation, q.distanceKm, None, None);
      match NewCommute(draft, id, now)
      case Err(_) => Err(SaveFailed)
      case Ok(c) =>
        var credits := LogCredits(c.carbonSaved);
        Ok((CreditOnLog(users, employee, credits), LogReceipt(c, credits)))
  }

  /** The credit rule's thresholds: below 5 kg nothing, 5 kg one credit.
      A negative saving floors to a negative figure, which the `credits > 0`
      guard of `CreditOnLog` then keeps off every balance. */
  lemma LogCreditsExamples(users: seq<User>, employee: UserId)
    ensures LogCredits(4.99) == 0 && LogCredits(5.0) == 1 && LogCredits(14.5) == 2
    ensures LogCredits(-0.5) == -1
    ensures CreditOnLog(users, employee, LogCredits(-0.5)) == users
  {
  }

  // ------------------------------------------- approving a pending registration

  /** `PendingRegistration.findById`. */
  function PendingIndex(pending: seq<PM.PendingRegistration>, id: PM.PendingId): (r: Option<nat>)
    ensures r.Some? ==> r.value < |pending| && pending[r.value].id == id
    ensures r.None? <==> forall i :: 0 <= i < |pending| ==> pending[i].id != id
  {
    FindIndex(pending, (p: PM.PendingRegistration) => p.id, id)
  }

  /** An approval's two writes: the pending record at `index` is deleted and
      `user` is saved. */
  datatype Approval = Approval(index: nat, user: User)

  /** `POST /approve/:pendingId` up to its writes, with the new account under
      the fresh id `id`: the admin check, the lookup, the address check, then
      `new User` from the pending record with companyName and approval but
      no employerId. */
  function EmployerApproval(users: seq<User>, pending: seq<PM.PendingRegistration>, caller: Caller,
                            pendingId: PM.PendingId, approvedBy: Option<UserId>, id: UserId, now: int)
    : (r: Result<Approval, AuthError>)
    ensures approvedBy.None? ==> r == Err(ApproverRequired)
    ensures approvedBy.Some? && caller.role != Admin ==> r == Err(NotAdmin)
    ensures r.Ok? ==>
      && caller.role == Admin && r.value.index < |pending| && pending[r.value.index].id == pendingId
      && var p, u := pending[r.value.index], r.value.user;
      && UserValid(u) && u.id == id && u.createdAt == now && !EmailInUse(users, u.email)
      && u.username == Trim(p.username) && u.email == NormalizeEmail(p.email) && u.password == p.password
      && u.role == p.role && u.role != Employee && u.companyName == p.companyName
      && u.isApproved && u.carbonCredits == 0.0 && u.employerId.None?
  {
    if approvedBy.None? then Err(ApproverRequired)
    else if caller.role != Admin then Err(NotAdmin)
    else match PendingIndex(pending, pendingId)
      case None => Err(PendingNotFound)
      case Some(pi) =>
        var p := pending[pi];
        if EmailTaken(users, p.email) then Err(UserExists)
        else
          var d := UserDraft(Some(p.username), Some(p.email), Some(p.password), Some(RoleName(p.role)),
                             p.companyName, None, None, Some(true));
          match NewUser(d, id, now)
          case Err(_) => Err(SaveFailed)
          case Ok(u) => Ok(Approval(pi, u))
  }

  /** An admin approves a valid pending employer whose address is free. */
  lemma EmployerApprovalAccepts(users: seq<User>, pending: seq<PM.PendingRegistration>, caller: Caller,
                                pendingId: PM.PendingId, approvedBy: Option<UserId>, id: UserId, now: int)
    requires approvedBy.Some? && caller.role == Admin
    requires PendingIndex(pending, pendingId).Some?
    requires var p := pending[PendingIndex(pending, pendingId).value];
      PM.PendingValid(p) && p.role == Employer && !EmailTaken(users, p.email)
    ensures var r := EmployerApproval(users, pending, caller, pendingId, approvedBy, id, now);
      r.Ok? && r.value.user.role == Employer
  {
    RoleNameRoundTrip(Employer, "employer");
    var p := pending[PendingIndex(pending, pendingId).value];
    var d := UserDraft(Some(p.username), Some(p.email), Some(p.password), Some(RoleName(p.role)),
                       p.companyName, None, None, Some(true));
    assert Filled(d.username) && Filled(d.email);
    assert NewUser(d, id, now).Ok?;
  }

  /** The admin route cannot approve a pending employee: it passes no
      employerId, so the new account fails validation. */
  lemma EmployeeNotApprovedByAdmin(users: seq<User>, pending: seq<PM.PendingRegistration>, caller: Caller,
                                   pendingId: PM.PendingId, approvedBy: Option<UserId>, id: UserId, now: int)
    requires PendingIndex(pending, pendingId).Some?
    requires pending[PendingIndex(pending, pendingId).value].role == Employee
    ensures EmployerApproval(users, pending, caller, pendingId, approvedBy, id, now).Err?
  {
  }

  /** `POST /approve-employee/:employeeId` up to its writes: the caller must
      be the employer named by approvedBy, the pending employee must have
      chosen that employer, and the new account carries the employerId and
      approval but no companyName. The unique index on email refuses an
      address already in use. */
  function EmployeeApproval(users: seq<User>, pending: seq<PM.PendingRegistration>, caller: Caller,
                            pendingId: PM.PendingId, approvedBy: Option<UserId>, id: UserId, now: int)
    : (r: Result<Approval, AuthError>)
    ensures approvedBy.None? ==> r == Err(ApproverRequired)
    ensures approvedBy.Some? && (approvedBy.value != caller.id || caller.role != Employer) ==> r == Err(NotTheEmployer)
    ensures approvedBy == Some(caller.id) && caller.role == Employer && PendingIndex(pending, pendingId).Some? ==>
      var e := pending[PendingIndex(pending, pendingId).value].employerId;
      && (e.None? ==> r == Err(ServerError))
      && (e.Some? && e.value != caller.id ==> r == Err(OtherCompany))
    ensures r.Ok? ==>
      && caller.role == Employer && approvedBy == Some(caller.id)
      && r.value.index < |pending| && pending[r.value.index].id == pendingId
      && var p, u := pending[r.value.index], r.value.user;
      && p.employerId == Some(caller.id)
      && UserValid(u) && u.id == id && u.createdAt == now && !EmailInUse(users, u.email)
      && u.username == Trim(p.username) && u.email == NormalizeEmail(p.email) && u.password == p.password
      && u.role == p.role && u.role != Employer && (u.role == Employee ==> u.employerId == Some(caller.id))
      && u.isApproved && u.carbonCredits == 0.0 && u.companyName.None?
  {
    if approvedBy.None? then Err(ApproverRequired)
    else if caller.id != approvedBy.value || caller.role != Employer then Err(NotTheEmployer)
    else match PendingIndex(pending, pendingId)
      case None => Err(PendingNotFound)
      case Some(pi) =>
        var p := pending[pi];
        if p.employerId.None? then Err(ServerError)
        else if p.employerId.value != approvedBy.value then Err(OtherCompany)
        else
          var d := UserDraft(Some(p.username), Some(p.email), Some(p.password), Some(RoleName(p.role)),
                             None, p.employerId, None, Some(true));
          match NewUser(d, id, now)
          case Err(_) => Err(SaveFailed)
          case Ok(u) => if EmailInUse(users, u.email) then Err(SaveFailed) else Ok(Approval(pi, u))
  }

  /** An employer approves a valid pending employee that chose it and whose
      address is free; the new account joins the employer's team. */
  lemma EmployeeApprovalAccepts(users: seq<User>, pending: seq<PM.PendingRegistration>, caller: Caller,
                                pendingId: PM.PendingId, id: UserId, now: int)
    requires caller.role == Employer && PendingIndex(pending, pendingId).Some?
    requires var p := pending[PendingIndex(pending, pendingId).value];
      PM.PendingValid(p) && p.role == Employee && p.employerId == Some(caller.id) && !EmailTaken(users, p.email)
    ensures var r := EmployeeApproval(users, pending, caller, pendingId, Some(caller.id), id, now);
      r.Ok? && InTeam(r.value.user, caller.id)
  {
    RoleNameRoundTrip(Employee, "employee");
    var p := pending[PendingIndex(pending, pendingId).value];
    var d := UserDraft(Some(p.username), Some(p.email), Some(p.password), Some(RoleName(p.role)),
                       None, p.employerId, None, Some(true));
    assert Filled(d.username) && Filled(d.email);
    assert NewUser(d, id, now).Ok?;
  }

  /** Whatever the route, an approved account can sign in with its password. */
  lemma ApprovedCanLogin(a: Approval, q: LoginRequest)
    requires a.user.isApproved && Present(q.email) && Present(q.password)
    ensures Login(q, Some(a.user), true) == Ok(Caller(a.user.id, a.user.role))
  {
  }

  /** Both approvals' writes, in one transaction: the account is saved under
      the fresh id and the pending record is deleted. */
  method Admit(db: Database, a: Approval)
    requires db.Valid() && a.index < |db.pending| && a.user.id == db.nextId && UserValid(a.user)
    modifies db
    ensures db.Valid()
    ensures db.users == old(db.users) + [a.user] && db.pending == RemoveAt(old(db.pending), a.index)
    ensures db.nextId == old(db.nextId) + 1
    ensures db.trades == old(db.trades) && db.commutes == old(db.commutes)
  {
    var id := db.FreshId();
    db.users := db.users + [a.user];
    db.pending := RemoveAt(db.pending, a.index);
    AdmitKeepsValid(old(db.users), db.trades, db.commutes, old(db.pending), id, a);
  }

  lemma AdmitKeepsValid(users: seq<User>, trades: seq<TradingModel.Trade>, commutes: seq<Commute>,
                        pending: seq<PM.PendingRegistration>, nextId: nat, a: Approval)
    requires StoreOk(users, trades, commutes, pending, nextId)
    requires a.index < |pending| && a.user.id == nextId && UserValid(a.user)
    ensures StoreOk(users + [a.user], trades, commutes, RemoveAt(pending, a.index), nextId + 1)
  {
    KeysBelowAppend(users, (u: User) => u.id, nextId, a.user);
    var t := users + [a.user];
    assert forall i :: 0 <= i < |t| ==> UserValid(t[i]) by {
      forall i | 0 <= i < |t| ensures UserValid(t[i]) {
        if i < |users| {
          assert t[i] == users[i];
        }
      }
    }
    KeysBelowRemove(pending, (p: PM.PendingRegistration) => p.id, nextId, a.index);
  }

  /** An approval creates no credits: the new account starts at 0. */
  lemma AdmitMintsNothing(users: seq<User>, a: Approval)
    requires a.user.carbonCredits == 0.0
    ensures TotalCredits(users + [a.user]) == TotalCredits(users)
  {
    TotalConcat(users, [a.user]);
    assert [a.user][1..] == [];
  }

  /** Once a record is deleted by id, a lookup of that id finds nothing. */
  lemma RemovedNotFound(pending: seq<PM.PendingRegistration>, nextId: nat, i: nat)
    requires KeysBelow(pending, (p: PM.PendingRegistration) => p.id, nextId) && i < |pending|
    ensures PendingIndex(RemoveAt(pending, i), pending[i].id).None?
  {
    var t := RemoveAt(pending, i);
    forall j | 0 <= j < |t| ensures t[j].id != pending[i].id {
      if j < i {
        assert t[j] == pending[j];
      } else {
        assert t[j] == pending[j + 1];
      }
    }
  }

  /** `POST /approve/:pendingId`. */
  method ApproveRegistration(db: Database, caller: Caller, pendingId: PM.PendingId, approvedBy: Option<UserId>, now: int)
    returns (r: Result<User, AuthError>)
    requires db.Valid()
    modifies db
    ensures db.Valid()
    ensures db.trades == old(db.trades) && db.commutes == old(db.commutes)
    ensures var o := EmployerApproval(old(db.users), old(db.pending), caller, pendingId, approvedBy, old(db.nextId), now);
      && (o.Err? ==> r == Err(o.error) && db.users == old(db.users) && db.pending == old(db.pending) && db.nextId == old(db.nextId))
      && (o.Ok? ==> r == Ok(o.value.user) && db.users == old(db.users) + [o.value.user]
                    && db.pending == RemoveAt(old(db.pending), o.value.index) && db.nextId == old(db.nextId) + 1
                    && PendingIndex(db.pending, pendingId).None?)
  {
    var o := EmployerApproval(db.users, db.pending, caller, pendingId, approvedBy, db.nextId, now);
    if o.Err? {
      return Err(o.error);
    }
    RemovedNotFound(db.pending, db.nextId, o.value.index);
    Admit(db, o.value);
    r := Ok(o.value.user);
  }

  /** `POST /approve-employee/:employeeId`. */
  method ApproveEmployee(db: Database, caller: Caller, pendingId: PM.PendingId, approvedBy: Option<UserId>, now: int)
    returns (r: Result<User, AuthError>)
    requires db.Valid()
    modifies db
    ensures db.Valid()
    ensures db.trades == old(db.trades) && db.commutes == old(db.commutes)
    ensures var o := EmployeeApproval(old(db.users), old(db.pending), caller, pendingId, approvedBy, old(db.nextId), now);
      && (o.Err? ==> r == Err(o.error) && db.users == old(db.users) && db.pending == old(db.pending) && db.nextId == old(db.nextId))
      && (o.Ok? ==> r == Ok(o.value.user) && db.users == old(db.users) + [o.value.user]
                    && db.pending == RemoveAt(old(db.pending), o.value.index) && db.nextId == old(db.nextId) + 1
                    && PendingIndex(db.pending, pendingId).None?)
  {
    var o := EmployeeApproval(db.users, db.pending, caller, pendingId, approvedBy, db.nextId, now);
    if o.Err? {
      return Err(o.error);
    }
    RemovedNotFound(db.pending, db.nextId, o.value.index);
    Admit(db, o.value);
    r := Ok(o.value.user);
  }

  // --------------------------------------------- rejecting a pending registration

  /** Deletes the pending record at `pi`. */
  method Discard(db: Database, pi: nat)
    requires db.Valid() && pi < |db.pending|
    modifies db`pending
    ensures db.Valid()
    ensures db.pending == RemoveAt(old(db.pending), pi)
    ensures PendingIndex(db.pending, old(db.pending)[pi].id).None?
  {
    RemovedNotFound(db.pending, db.nextId, pi);
    KeysBelowRemove(db.pending, (p: PM.PendingRegistration) => p.id, db.nextId, pi);
    db.pending := RemoveAt(db.pending, pi);
  }

  /** `POST /reject/:pendingId`: admins only. */
  method RejectRegistration(db: Database, caller: Caller, pendingId: PM.PendingId, rejectedBy: Option<UserId>)
    returns (r: Result<Unit, AuthError>)
    requires db.Valid()
    modifies db`pending
    ensures db.Valid()
    ensures rejectedBy.None? ==> r == Err(ApproverRequired)
    ensures rejectedBy.Some? && caller.role != Admin ==> r == Err(NotAdmin)
    ensures r.Ok? <==> rejectedBy.Some? && caller.role == Admin && PendingIndex(old(db.pending), pendingId).Some?
    ensures r.Ok? ==> db.pending == RemoveAt(old(db.pending), PendingIndex(old(db.pending), pendingId).value)
                      && PendingIndex(db.pending, pendingId).None?
    ensures r.Err? ==> db.pending == old(db.pending)
  {
    if rejectedBy.None? {
      return Err(ApproverRequired);
    }
    if caller.role != Admin {
      return Err(NotAdmin);
    }
    var pi := PendingIndex(db.pending, pendingId);
    if pi.None? {
      return Err(PendingNotFound);
    }
    Discard(db, pi.value);
    r := Ok(Unit);
  }

  /** `POST /reject-employee/:employeeId`: the route has no authorization
      check, so any caller with a token may reject any pending record. */
  method RejectEmployee(db: Database, pendingId: PM.PendingId) returns (r: Result<Unit, AuthError>)
    requires db.Valid()
    modifies db`pending
    ensures db.Valid()
    ensures r.Ok? <==> PendingIndex(old(db.pending), pendingId).Some?
    ensures r.Ok? ==> db.pending == RemoveAt(old(db.pending), PendingIndex(old(db.pending), pendingId).value)
                      && PendingIndex(db.pending, pendingId).None?
    ensures r.Err? ==> r == Err(PendingNotFound) && db.pending == old(db.pending)
  {
    var pi := PendingIndex(db.pending, pendingId);
    if pi.None? {
      return Err(PendingNotFound);
    }
    Discard(db, pi.value);
    r := Ok(Unit);
  }

  // ------------------------------------- DELETE /users/:userId, /employee/:id

  /** Both delete routes' check: an admin, or the caller is the account's
      employer (`employerId?.toString()`, undefined for non-employees). */
  predicate MayDelete(caller: Caller, target: User) {
    caller.role == Admin || target.employerId == Some(caller.id)
  }

  /** Apart from an admin, a caller can delete only an employee of its own
      team: an employer's or an admin's account has no employerId. */
  lemma DeleteScope(caller: Caller, target: User)
    requires UserValid(target) && caller.role != Admin
    ensures MayDelete(caller, target) <==> InTeam(target, caller.id)
  {
  }

  /** Deleting an account takes its balance out of the store's total. */
  lemma RemoveAtTotal(users: seq<User>, i: nat)
    requires i < |users|
    ensures TotalCredits(RemoveAt(users, i)) == TotalCredits(users) - users[i].carbonCredits
  {
    var front, rest := users[..i], users[i..];
    assert front + rest == users;
    assert rest[0] == users[i] && rest[1..] == users[i + 1..];
    TotalConcat(front, rest);
    TotalConcat(front, users[i + 1..]);
  }

  /** The account deletion both routes perform (the cascades to
      notifications, commutes and trades are not modelled). */
  method DeleteAccount(db: Database, caller: Caller, userId: UserId) returns (r: Result<Unit, AuthError>)
    requires db.Valid()
    modifies db`users
    ensures db.Valid()
    ensures UserIndex(old(db.users), userId).None? ==> r == Err(UserNotFound)
    ensures r.Ok? <==> UserIndex(old(db.users), userId).Some? && MayDelete(caller, old(db.users)[UserIndex(old(db.users), userId).value])
    ensures r.Ok? ==> db.users == RemoveAt(old(db.users), UserIndex(old(db.users), userId).value)
                      && UserIndex(db.users, userId).None?
    ensures r.Err? ==> db.users == old(db.users)
  {
    var ui := UserIndex(db.users, userId);
    if ui.None? {
      return Err(UserNotFound);
    }
    if !MayDelete(caller, db.users[ui.value]) {
      return Err(NotAuthorized);
    }
    RemoveUserKeepsValid(db.users, db.nextId, ui.value);
    db.users := RemoveAt(db.users, ui.value);
    r := Ok(Unit);
  }

  lemma RemoveUserKeepsValid(users: seq<User>, nextId: nat, i: nat)
    requires UsersOk(users, nextId) && i < |users|
    ensures UsersOk(RemoveAt(users, i), nextId)
    ensures UserIndex(RemoveAt(users, i), users[i].id).None?
  {
    KeysBelowRemove(users, (u: User) => u.id, nextId, i);
    var t := RemoveAt(users, i);
    forall j | 0 <= j < |t| ensures t[j].id != users[i].id && UserValid(t[j]) {
      if j < i {
        assert t[j] == users[j];
      } else {
        assert t[j] == users[j + 1];
      }
    }
  }
}
