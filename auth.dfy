/** The auth controller: registration's ordered validation chain and the
    role-specific fields it stores; login's guards, where an unknown email
    and a wrong password are answered alike. Password hashing and matching
    are a predicate passed in; tokens are not modelled. */
module Auth {
  import opened Common
  import opened Models
  import opened Store

  /** The body of POST /api/auth/register; absent fields are None. */
  datatype Registration = Registration(
    fullName: Option<string>,
    email: Option<string>,
    password: Option<string>,
    role: Option<string>,
    medicalLicense: Option<string>,
    specialization: Option<string>,
    pharmacyLicenseNumber: Option<string>,
    address: Option<string>)

  const MissingFields := "Please provide all required fields: name, email, password, and role"
  const InvalidRole := "Invalid role. Allowed roles are Patient, Doctor, Pharmacist, and Admin"
  const DoctorFields := "Doctor registration requires Medical License Number and Specialization"
  const PharmacistFields := "Pharmacist registration requires Pharmacy License Number and Address"
  const EmailTaken := "User already exists with this email"
  const InvalidCredentials := "Invalid credentials"

  /** The first user, in store order, registered under exactly `email`. */
  function UserByEmail(users: map<Id, User>, n: nat, email: string): (found: Option<Id>)
    ensures found.Some? ==> found.value in users && users[found.value].email == email
    ensures found.None? ==> forall id :: id < n && id in users ==> users[id].email != email
  {
    var ids := IdsWhere(users, n, (u: User) => u.email == email);
    if ids == [] then None else Some(ids[0])
  }

  /** The four basic fields are given. */
  predicate BasicFieldsGiven(req: Registration) {
    Given(req.fullName) && Given(req.email) && Given(req.password) && Given(req.role)
  }

  /** The role-specific fields the named role needs are given. */
  predicate RoleFieldsGiven(role: Role, req: Registration) {
    (role == Doctor ==> Given(req.medicalLicense) && Given(req.specialization)) &&
    (role == Pharmacist ==> Given(req.pharmacyLicenseNumber) && Given(req.address))
  }

  /** The stored record: the basic fields, plus the doctor fields only for a
      Doctor and the pharmacist fields only for a Pharmacist. */
  function NewUser(role: Role, req: Registration): (u: User)
    requires BasicFieldsGiven(req)
    ensures u.fullName == req.fullName.value && u.email == req.email.value
    ensures u.password == req.password.value && u.role == role
    ensures u.medicalLicense == (if role == Doctor then req.medicalLicense else None)
    ensures u.specialization == (if role == Doctor then req.specialization else None)
    ensures u.pharmacyLicenseNumber == (if role == Pharmacist then req.pharmacyLicenseNumber else None)
    ensures u.address == (if role == Pharmacist then req.address else None)
  {
    User(req.fullName.value, req.email.value, req.password.value, role,
         if role == Doctor then req.medicalLicense else None,
         if role == Doctor then req.specialization else None,
         if role == Pharmacist then req.pharmacyLicenseNumber else None,
         if role == Pharmacist then req.address else None)
  }

  /** The reply of POST /api/auth/register. Every refusal is a 400, in this
      order: a basic field missing, a role outside the four, a Doctor's or a
      Pharmacist's own fields missing, and last the email already taken. */
  function RegisterReply(users: map<Id, User>, n: nat, req: Registration): (r: Result<User>)
    ensures r.Fail? ==> r.status == BAD_REQUEST
    ensures !BasicFieldsGiven(req) ==> r == Fail(BAD_REQUEST, MissingFields)
    ensures BasicFieldsGiven(req) && ParseRole(req.role.value).None? ==> r == Fail(BAD_REQUEST, InvalidRole)
    ensures BasicFieldsGiven(req) && req.role.value == "Doctor" && !RoleFieldsGiven(Doctor, req) ==>
      r == Fail(BAD_REQUEST, DoctorFields)
    ensures BasicFieldsGiven(req) && req.role.value == "Pharmacist" && !RoleFieldsGiven(Pharmacist, req) ==>
      r == Fail(BAD_REQUEST, PharmacistFields)
    ensures r.Ok? <==>
      && BasicFieldsGiven(req) && ParseRole(req.role.value).Some?
      && RoleFieldsGiven(ParseRole(req.role.value).value, req)
      && UserByEmail(users, n, req.email.value).None?
    ensures r.Ok? ==> r.status == CREATED && r.value == NewUser(ParseRole(req.role.value).value, req)
    ensures r.Ok? ==> RoleName(r.value.role) == req.role.value
  {
    if !BasicFieldsGiven(req) then Fail(BAD_REQUEST, MissingFields)
    else
      var role := ParseRole(req.role.value);
      if role.None? then Fail(BAD_REQUEST, InvalidRole)
      else if role.value == Doctor && !RoleFieldsGiven(Doctor, req) then Fail(BAD_REQUEST, DoctorFields)
      else if role.value == Pharmacist && !RoleFieldsGiven(Pharmacist, req) then
        Fail(BAD_REQUEST, PharmacistFields)
      else if UserByEmail(users, n, req.email.value).Some? then Fail(BAD_REQUEST, EmailTaken)
      else Ok(CREATED, NewUser(role.value, req))
  }

  /** The duplicate-email check runs last: a registration with a field
      problem is refused for that problem even when its email is taken. */
  lemma DuplicateEmailCheckedLast(users: map<Id, User>, n: nat, req: Registration)
    requires RegisterReply(users, n, req).Fail?
    ensures RegisterReply(users, n, req).message == EmailTaken <==>
      && BasicFieldsGiven(req) && ParseRole(req.role.value).Some?
      && RoleFieldsGiven(ParseRole(req.role.value).value, req)
      && UserByEmail(users, n, req.email.value).Some?
  {
  }

  /** Registering the same email twice: the second attempt is refused and
      the store keeps one user under it. */
  lemma RegisterTwiceRefused(users: map<Id, User>, n: nat, req: Registration, again: Registration)
    requires Below(users, n)
    requires RegisterReply(users, n, req).Ok?
    requires BasicFieldsGiven(again) && again.email == req.email
    ensures RegisterReply(users[n := RegisterReply(users, n, req).value], n + 1, again).Fail?
  {
    var u := RegisterReply(users, n, req).value;
    var after := users[n := u];
    assert after[n].email == again.email.value;
    assert n in IdsWhere(after, n + 1, (x: User) => x.email == again.email.value);
  }

  /** POST /api/auth/register. */
  method Register(db: Db, req: Registration) returns (res: Result<User>, id: Id)
    requires db.Valid()
    modifies db`users, db`nextId
    ensures db.Valid()
    ensures res == RegisterReply(old(db.users), old(db.nextId), req)
    ensures res.Ok? ==> id == old(db.nextId) && db.users == old(db.users)[id := res.value]
    ensures res.Fail? ==> db.users == old(db.users) && db.nextId == old(db.nextId)
  {
    id := 0;
    res := RegisterReply(db.users, db.nextId, req);
    if res.Ok? {
      id := db.Allocate();
      db.users := db.users[id := res.value];
    }
  }

  // ------------------------------------------------------------------ login

  /** The reply of POST /api/auth/login, given the password check
      `matches(user, password)`: 400 without an email or password, then the
      same 401 for an unknown email and for a wrong password; otherwise the
      signed-in user. */
  function LoginReply(users: map<Id, User>, n: nat, email: Option<string>, password: Option<string>,
                      matches: (User, string) -> bool)
    : (r: Result<Caller>)
    ensures !(Given(email) && Given(password)) ==> r.Fail? && r.status == BAD_REQUEST
    ensures r.Ok? <==>
      Given(email) && Given(password) && UserByEmail(users, n, email.value).Some? &&
      matches(users[UserByEmail(users, n, email.value).value], password.value)
    ensures Given(email) && Given(password) && r.Fail? ==> r == Fail(UNAUTHORIZED, InvalidCredentials)
    ensures r.Ok? ==>
      var id := UserByEmail(users, n, email.value).value;
      r.status == OK && r.value == Caller(id, users[id].role) && users[id].email == email.value
  {
    if !Given(email) || !Given(password) then Fail(BAD_REQUEST, "Please provide email and password")
    else
      var found := UserByEmail(users, n, email.value);
      if found.None? then Fail(UNAUTHORIZED, InvalidCredentials)
      else if !matches(users[found.value], password.value) then Fail(UNAUTHORIZED, InvalidCredentials)
      else Ok(OK, Caller(found.value, users[found.value].role))
  }

  /** An unknown email and a known email with a wrong password get the very
      same reply, so a failed login does not reveal whether the email is
      registered. */
  lemma LoginFailuresAlike(
    users: map<Id, User>, n: nat, unknown: string, known: string, password: string,
    matches: (User, string) -> bool)
    requires unknown != "" && known != "" && password != ""
    requires UserByEmail(users, n, unknown).None?
    requires UserByEmail(users, n, known).Some?
    requires !matches(users[UserByEmail(users, n, known).value], password)
    ensures LoginReply(users, n, Some(unknown), Some(password), matches) ==
            LoginReply(users, n, Some(known), Some(password), matches)
  {
  }

  /** A user just registered can sign in with the same email and password
      when the password check accepts it, and gets the registered role. */
  lemma RegisterThenLogin(users: map<Id, User>, n: nat, req: Registration, matches: (User, string) -> bool)
    requires Below(users, n)
    requires RegisterReply(users, n, req).Ok?
    requires matches(RegisterReply(users, n, req).value, req.password.value)
    ensures var after := users[n := RegisterReply(users, n, req).value];
      var r := LoginReply(after, n + 1, req.email, req.password, matches);
      r.Ok? && r.value == Caller(n, ParseRole(req.role.value).value)
  {
    var u := RegisterReply(users, n, req).value;
    var email := req.email.value;
    assert UserByEmail(users, n, email).None?;
    IdsWhereUpdate(users, n, u, email);
    assert UserByEmail(users[n := u], n + 1, email) == Some(n);
  }

  /** Adding a user under the fresh id `n` to a store with no user under
      `email` makes that user the only match. */
  lemma IdsWhereUpdate(users: map<Id, User>, n: nat, u: User, email: string)
    requires Below(users, n)
    requires IdsWhere(users, n, (x: User) => x.email == email) == []
    requires u.email == email
    ensures IdsWhere(users[n := u], n + 1, (x: User) => x.email == email) == [n]
  {
    IdsWhereFrame(users, users[n := u], n, (x: User) => x.email == email);
  }
}
