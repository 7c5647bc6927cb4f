/** `POST /api/auth`: administrator registration and login. */
module AdminAuth {
  import opened Common
  import opened Seqs
  import opened Entities
  import opened Db
  import opened Credentials

  /** The request body.  Every field is `None` when absent. */
  datatype AdminAuthRequest = AdminAuthRequest(
    email: Option<string>,
    password: Option<string>,
    firstName: Option<string>,
    lastName: Option<string>,
    phoneNumber: Option<string>,
    action: Option<string>)

  datatype AdminAuthError =
    | EmailTaken
    | InvalidCredentials
    /** Something threw (no email to look up, no password to hash or
        compare) and the outer catch answered. */
    | InternalError

  /** An admin row without its password. */
  datatype AdminProfile = AdminProfile(
    id: Id,
    email: string,
    firstName: Option<string>,
    lastName: Option<string>,
    phoneNumber: Option<string>,
    createdAt: int)

  function ProfileOf(a: Admin): (p: AdminProfile)
    ensures p.id == a.id && p.email == a.email && p.firstName == a.firstName
    ensures p.lastName == a.lastName && p.phoneNumber == a.phoneNumber && p.createdAt == a.createdAt
  {
    AdminProfile(a.id, a.email, a.firstName, a.lastName, a.phoneNumber, a.createdAt)
  }

  /** `admin.findUnique({ where: { email } })` */
  function AdminByEmail(admins: seq<Admin>, email: string): (r: Option<Admin>)
    ensures r.Some? ==> r.value in admins && r.value.email == email
    ensures r.None? <==> forall a :: a in admins ==> a.email != email
  {
    Find(admins, (a: Admin) => a.email == email)
  }

  /** The row a registration inserts: no field is validated, so the contact
      fields are stored as they came, absent ones included. */
  function NewAdmin(q: AdminAuthRequest, h: Hasher, id: Id, now: int): (a: Admin)
    requires q.email.Some? && q.password.Some?
    ensures a.email == q.email.value && a.password == h.hash(q.password.value)
    ensures a.firstName == q.firstName && a.lastName == q.lastName && a.phoneNumber == q.phoneNumber
  {
    Admin(id, q.email.value, h.hash(q.password.value), q.firstName, q.lastName, q.phoneNumber, now)
  }

  /** The login branch, a read.  An unknown email and a wrong password draw
      the very same 401; the success answer carries no explicit status and
      so is a 200. */
  function Login(admins: seq<Admin>, h: Hasher, email: Option<string>, password: Option<string>)
    : (r: Response<AdminProfile, AdminAuthError>)
    ensures r == Err(401, InvalidCredentials) <==>
      email.Some? &&
      (AdminByEmail(admins, email.value).None? ||
       (password.Some? && !h.verify(password.value, AdminByEmail(admins, email.value).value.password)))
    ensures r == Err(500, InternalError) <==>
      email.None? || (AdminByEmail(admins, email.value).Some? && password.None?)
    ensures r.Ok? ==> r.status == 200
    ensures r.Ok? ==> exists a :: a in admins && a.email == email.value && r.value == ProfileOf(a) && h.verify(password.value, a.password)
    ensures (email.Some? && password.Some? && AdminByEmail(admins, email.value).Some? &&
       h.verify(password.value, AdminByEmail(admins, email.value).value.password)) ==>
      r == Ok(200, ProfileOf(AdminByEmail(admins, email.value).value))
    ensures r.Ok? || r.Err?
  {
    if email.None? then Err(500, InternalError)
    else match AdminByEmail(admins, email.value)
      case None => Err(401, InvalidCredentials)
      case Some(a) =>
        if password.None? then Err(500, InternalError)
        else if !h.verify(password.value, a.password) then Err(401, InvalidCredentials)
        else Ok(200, ProfileOf(a))
  }

  /** The registration branch.  Only a duplicate email is refused. */
  method Register(db: Store, h: Hasher, q: AdminAuthRequest, now: int)
    returns (r: Response<AdminProfile, AdminAuthError>)
    requires db.Valid()
    modifies db
    ensures db.Valid()
    ensures unchanged(db`products, db`farmers, db`buyers, db`carts, db`cartItems, db`orders, db`chats, db`notifications)
    ensures q.email.None? ==> r == Err(500, InternalError) && unchanged(db)
    ensures q.email.Some? && AdminByEmail(old(db.admins), q.email.value).Some? ==>
      r == Err(400, EmailTaken) && unchanged(db)
    ensures q.email.Some? && AdminByEmail(old(db.admins), q.email.value).None? && q.password.None? ==>
      r == Err(500, InternalError) && unchanged(db)
    ensures q.email.Some? && AdminByEmail(old(db.admins), q.email.value).None? && q.password.Some? ==>
      && db.admins == old(db.admins) + [NewAdmin(q, h, old(db.nextId), now)]
      && db.nextId == old(db.nextId) + 1
      && r == Ok(200, ProfileOf(NewAdmin(q, h, old(db.nextId), now)))
  {
    if q.email.None? {
      return Err(500, InternalError);
    }
    var existing := AdminByEmail(db.admins, q.email.value);
    if existing.Some? {
      return Err(400, EmailTaken);
    }
    if q.password.None? {
      return Err(500, InternalError);
    }
    var admin := NewAdmin(q, h, db.nextId, now);
    db.admins := db.admins + [admin];
    db.nextId := db.nextId + 1;
    r := Ok(200, ProfileOf(admin));
  }

  /** The handler.  Any action other than the two falls off the end of the
      handler, and no response is produced at all. */
  method AdminAuthPost(db: Store, h: Hasher, q: AdminAuthRequest, now: int)
    returns (r: Response<AdminProfile, AdminAuthError>)
    requires db.Valid()
    modifies db
    ensures db.Valid()
    ensures q.action != Some("register") ==> unchanged(db)
    ensures q.action != Some("register") && q.action != Some("login") ==> r == NoResponse
    ensures q.action == Some("login") ==> r == Login(db.admins, h, q.email, q.password)
    ensures unchanged(db`products, db`farmers, db`buyers, db`carts, db`cartItems, db`orders, db`chats, db`notifications)
    ensures q.action == Some("register") && q.email.None? ==> r == Err(500, InternalError) && unchanged(db)
    ensures q.action == Some("register") && q.email.Some? && AdminByEmail(old(db.admins), q.email.value).Some? ==>
      r == Err(400, EmailTaken) && unchanged(db)
    ensures (q.action == Some("register") && q.email.Some? && q.password.None? &&
             AdminByEmail(old(db.admins), q.email.value).None?) ==> r == Err(500, InternalError) && unchanged(db)
    ensures (q.action == Some("register") && q.email.Some? && q.password.Some? &&
             AdminByEmail(old(db.admins), q.email.value).None?) ==>
      && db.admins == old(db.admins) + [NewAdmin(q, h, old(db.nextId), now)]
      && db.nextId == old(db.nextId) + 1
      && r == Ok(200, ProfileOf(NewAdmin(q, h, old(db.nextId), now)))
  {
    if q.action == Some("register") {
      r := Register(db, h, q, now);
      return;
    }
    if q.action == Some("login") {
      r := Login(db.admins, h, q.email, q.password);
      return;
    }
    r := NoResponse;
  }

  /** Registering and then logging in with the same email and password
      succeeds, given a sound hasher. */
  lemma RegisterThenLogin(admins: seq<Admin>, h: Hasher, q: AdminAuthRequest, id: Id, now: int)
    requires Sound(h)
    requires q.email.Some? && q.password.Some? && AdminByEmail(admins, q.email.value).None?
    ensures var a := NewAdmin(q, h, id, now);
      Login(admins + [a], h, q.email, q.password) == Ok(200, ProfileOf(a))
  {
    var a := NewAdmin(q, h, id, now);
    FindAppend(admins, a, (x: Admin) => x.email == q.email.value);
    assert AdminByEmail(admins + [a], q.email.value) == Some(a);
  }
}
