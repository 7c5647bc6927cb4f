/** `POST /api/farmer/auth`: farmer registration and login, chosen by the
    request's `action`. */
module FarmerAuth {
  import opened Common
  import opened Seqs
  import opened Entities
  import opened Db
  import opened Credentials

  /** The request body.  Every field is `None` when absent. */
  datatype FarmerAuthRequest = FarmerAuthRequest(
    email: Option<string>,
    password: Option<string>,
    firstName: Option<string>,
    lastName: Option<string>,
    farmName: Option<string>,
    farmAddress: Option<string>,
    farmSize: Option<int>,
    phoneNumber: Option<string>,
    action: Option<string>)

  datatype FarmerAuthError =
    | ActionRequired
    | MissingRegistrationFields
    | EmailTaken
    | MissingLoginFields
    | InvalidCredentials
    | InvalidAction

  /** A farmer row without its password (`{ ...farmer, password: undefined }`). */
  datatype FarmerProfile = FarmerProfile(
    id: Id,
    email: string,
    firstName: string,
    lastName: string,
    farmName: string,
    farmAddress: string,
    farmSize: int,
    phoneNumber: string,
    status: UserStatus,
    rejectionReason: Option<string>,
    createdAt: int)

  datatype FarmerReply = Registered(farmer: FarmerProfile) | LoggedIn(farmer: FarmerProfile)

  function ProfileOf(f: Farmer): (p: FarmerProfile)
    ensures p.id == f.id && p.email == f.email && p.firstName == f.firstName && p.lastName == f.lastName
    ensures p.farmName == f.farmName && p.farmAddress == f.farmAddress && p.farmSize == f.farmSize
    ensures p.phoneNumber == f.phoneNumber && p.status == f.status
    ensures p.rejectionReason == f.rejectionReason && p.createdAt == f.createdAt
  {
    FarmerProfile(f.id, f.email, f.firstName, f.lastName, f.farmName, f.farmAddress, f.farmSize,
                  f.phoneNumber, f.status, f.rejectionReason, f.createdAt)
  }

  /** `farmer.findUnique({ where: { email } })` */
  function FarmerByEmail(fs: seq<Farmer>, email: string): (r: Option<Farmer>)
    ensures r.Some? ==> r.value in fs && r.value.email == email
    ensures r.None? <==> forall f :: f in fs ==> f.email != email
  {
    Find(fs, (f: Farmer) => f.email == email)
  }

  /** The registration check: every text field truthy; `farmSize` need only
      be defined, so a size of 0 passes. */
  predicate RegistrationComplete(q: FarmerAuthRequest)
  {
    && Present(q.email) && Present(q.password) && Present(q.firstName) && Present(q.lastName)
    && Present(q.farmName) && Present(q.farmAddress) && q.farmSize.Some? && Present(q.phoneNumber)
  }

  /** The row a registration inserts: the submitted fields, with the digest
      in place of the password. */
  function NewFarmer(q: FarmerAuthRequest, h: Hasher, id: Id, status: UserStatus, now: int): (f: Farmer)
    requires RegistrationComplete(q)
    ensures f.email == q.email.value && f.password == h.hash(q.password.value)
  {
    Farmer(id, q.email.value, h.hash(q.password.value), q.firstName.value, q.lastName.value,
           q.farmName.value, q.farmAddress.value, q.farmSize.value, q.phoneNumber.value, status, None, now)
  }

  /** The login branch, a read.  An unknown email and a wrong password draw
      the very same 401. */
  function Login(fs: seq<Farmer>, h: Hasher, email: Option<string>, password: Option<string>)
    : (r: Response<FarmerProfile, FarmerAuthError>)
    ensures !Present(email) || !Present(password) <==> r == Err(400, MissingLoginFields)
    ensures r == Err(401, InvalidCredentials) <==>
      Present(email) && Present(password) &&
      (FarmerByEmail(fs, email.value).None? || !h.verify(password.value, FarmerByEmail(fs, email.value).value.password))
    ensures r.Ok? ==> r.status == 200
    ensures r.Ok? ==> exists f :: f in fs && f.email == email.value && r.value == ProfileOf(f) && h.verify(password.value, f.password)
    ensures (Present(email) && Present(password) && FarmerByEmail(fs, email.value).Some? &&
       h.verify(password.value, FarmerByEmail(fs, email.value).value.password)) ==>
      r == Ok(200, ProfileOf(FarmerByEmail(fs, email.value).value))
    ensures r.Ok? || r.Err?
  {
    if !Present(email) || !Present(password) then Err(400, MissingLoginFields)
    else match FarmerByEmail(fs, email.value)
      case None => Err(401, InvalidCredentials)
      case Some(f) =>
        if !h.verify(password.value, f.password) then Err(401, InvalidCredentials)
        else Ok(200, ProfileOf(f))
  }

  /** The registration branch.  A duplicate email inserts nothing; otherwise
      one farmer is inserted whose stored password is the digest. */
  method Register(db: Store, h: Hasher, q: FarmerAuthRequest, now: int)
    returns (r: Response<FarmerProfile, FarmerAuthError>)
    requires db.Valid()
    modifies db
    ensures db.Valid()
    ensures unchanged(db`products, db`buyers, db`admins, db`carts, db`cartItems, db`orders, db`chats, db`notifications)
    ensures !RegistrationComplete(q) ==> r == Err(400, MissingRegistrationFields) && unchanged(db)
    ensures RegistrationComplete(q) && FarmerByEmail(old(db.farmers), q.email.value).Some? ==>
      r == Err(400, EmailTaken) && unchanged(db)
    ensures RegistrationComplete(q) && FarmerByEmail(old(db.farmers), q.email.value).None? ==>
      && db.farmers == old(db.farmers) + [NewFarmer(q, h, old(db.nextId), db.defaults.userStatus, now)]
      && db.nextId == old(db.nextId) + 1
      && r == Ok(201, ProfileOf(NewFarmer(q, h, old(db.nextId), db.defaults.userStatus, now)))
  {
    if !RegistrationComplete(q) {
      return Err(400, MissingRegistrationFields);
    }
    var existing := FarmerByEmail(db.farmers, q.email.value);
    if existing.Some? {
      return Err(400, EmailTaken);
    }
    var farmer := NewFarmer(q, h, db.nextId, db.defaults.userStatus, now);
    db.farmers := db.farmers + [farmer];
    db.nextId := db.nextId + 1;
    r := Ok(201, ProfileOf(farmer));
  }

  /** The handler: a missing action is refused first, then the two actions
      are served and anything else is refused. */
  method FarmerAuthPost(db: Store, h: Hasher, q: FarmerAuthRequest, now: int)
    returns (r: Response<FarmerReply, FarmerAuthError>)
    requires db.Valid()
    modifies db
    ensures db.Valid()
    ensures q.action != Some("register") ==> unchanged(db)
    ensures !Present(q.action) ==> r == Err(400, ActionRequired)
    ensures Present(q.action) && q.action.value != "register" && q.action.value != "login" ==>
      r == Err(400, InvalidAction)
    ensures q.action == Some("login") ==>
      var l := Login(db.farmers, h, q.email, q.password);
      r == if l.Ok? then Ok(l.status, LoggedIn(l.value)) else Err(l.status, l.error)
    ensures unchanged(db`products, db`buyers, db`admins, db`carts, db`cartItems, db`orders, db`chats, db`notifications)
    ensures q.action == Some("register") && !RegistrationComplete(q) ==>
      r == Err(400, MissingRegistrationFields) && unchanged(db)
    ensures q.action == Some("register") && RegistrationComplete(q) && FarmerByEmail(old(db.farmers), q.email.value).Some? ==>
      r == Err(400, EmailTaken) && unchanged(db)
    ensures q.action == Some("register") && RegistrationComplete(q) && FarmerByEmail(old(db.farmers), q.email.value).None? ==>
      && db.farmers == old(db.farmers) + [NewFarmer(q, h, old(db.nextId), db.defaults.userStatus, now)]
      && db.nextId == old(db.nextId) + 1
      && r == Ok(201, Registered(ProfileOf(NewFarmer(q, h, old(db.nextId), db.defaults.userStatus, now))))
  {
    if !Present(q.action) {
      return Err(400, ActionRequired);
    }
    if q.action.value == "register" {
      var reg := Register(db, h, q, now);
      r := if reg.Ok? then Ok(reg.status, Registered(reg.value)) else Err(reg.status, reg.error);
      return;
    }
    if q.action.value == "login" {
      var l := Login(db.farmers, h, q.email, q.password);
      r := if l.Ok? then Ok(l.status, LoggedIn(l.value)) else Err(l.status, l.error);
      return;
    }
    r := Err(400, InvalidAction);
  }

  /** Registering and then logging in with the same email and password
      succeeds and returns the new farmer, given a sound hasher. */
  lemma RegisterThenLogin(fs: seq<Farmer>, h: Hasher, q: FarmerAuthRequest, id: Id, status: UserStatus, now: int)
    requires Sound(h)
    requires RegistrationComplete(q) && FarmerByEmail(fs, q.email.value).None?
    ensures var f := NewFarmer(q, h, id, status, now);
      Login(fs + [f], h, q.email, q.password) == Ok(200, ProfileOf(f))
  {
    var f := NewFarmer(q, h, id, status, now);
    FindAppend(fs, f, (x: Farmer) => x.email == q.email.value);
    assert FarmerByEmail(fs + [f], q.email.value) == Some(f);
  }
}
