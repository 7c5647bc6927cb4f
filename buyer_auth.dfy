/** `POST /api/buyer/auth`: buyer registration and login, chosen by the
    request's `action`. */
module BuyerAuth {
  import opened Common
  import opened Seqs
  import opened Entities
  import opened Db
  import opened Credentials

  /** The request body.  Every field is `None` when absent. */
  datatype BuyerAuthRequest = BuyerAuthRequest(
    email: Option<string>,
    password: Option<string>,
    firstName: Option<string>,
    lastName: Option<string>,
    paymentMethod: Option<string>,
    address: Option<string>,
    phoneNumber: Option<string>,
    action: Option<string>)

  datatype BuyerAuthError =
    | MissingRegistrationFields
    | EmailTaken
    | InvalidCredentials
    /** The lookup threw: there was no email to look up. */
    | LoginFailed
    /** The password comparison threw: there was no password to compare. */
    | ValidateFailed
    | InvalidAction

  /** A buyer row without its password. */
  datatype BuyerProfile = BuyerProfile(
    id: Id,
    email: string,
    firstName: string,
    lastName: string,
    paymentMethod: string,
    address: string,
    phoneNumber: string,
    status: UserStatus,
    rejectionReason: Option<string>,
    createdAt: int)

  datatype BuyerReply = Registered(buyer: BuyerProfile) | LoggedIn(buyer: BuyerProfile)

  function ProfileOf(b: Buyer): (p: BuyerProfile)
    ensures p.id == b.id && p.email == b.email && p.firstName == b.firstName && p.lastName == b.lastName
    ensures p.paymentMethod == b.paymentMethod && p.address == b.address && p.phoneNumber == b.phoneNumber
    ensures p.status == b.status && p.rejectionReason == b.rejectionReason && p.createdAt == b.createdAt
  {
    BuyerProfile(b.id, b.email, b.firstName, b.lastName, b.paymentMethod, b.address, b.phoneNumber,
                 b.status, b.rejectionReason, b.createdAt)
  }

  /** `buyer.findUnique({ where: { email } })` */
  function BuyerByEmail(bs: seq<Buyer>, email: string): (r: Option<Buyer>)
    ensures r.Some? ==> r.value in bs && r.value.email == email
    ensures r.None? <==> forall b :: b in bs ==> b.email != email
  {
    Find(bs, (b: Buyer) => b.email == email)
  }

  /** The registration check: all seven fields truthy. */
  predicate RegistrationComplete(q: BuyerAuthRequest)
  {
    && Present(q.email) && Present(q.password) && Present(q.firstName) && Present(q.lastName)
    && Present(q.paymentMethod) && Present(q.address) && Present(q.phoneNumber)
  }

  function NewBuyer(q: BuyerAuthRequest, h: Hasher, id: Id, status: UserStatus, now: int): (b: Buyer)
    requires RegistrationComplete(q)
    ensures b.email == q.email.value && b.password == h.hash(q.password.value)
  {
    Buyer(id, q.email.value, h.hash(q.password.value), q.firstName.value, q.lastName.value,
          q.paymentMethod.value, q.address.value, q.phoneNumber.value, status, None, now)
  }

  /** The login branch, a read.  Nothing is checked for presence up front:
      a missing email makes the lookup throw and a missing password makes
      the comparison throw, both answered with 500.  An unknown email and a
      wrong password draw the very same 401. */
  function Login(bs: seq<Buyer>, h: Hasher, email: Option<string>, password: Option<string>)
    : (r: Response<BuyerProfile, BuyerAuthError>)
    ensures email.None? <==> r == Err(500, LoginFailed)
    ensures r == Err(500, ValidateFailed) <==>
      email.Some? && BuyerByEmail(bs, email.value).Some? && password.None?
    ensures r == Err(401, InvalidCredentials) <==>
      email.Some? &&
      (BuyerByEmail(bs, email.value).None? ||
       (password.Some? && !h.verify(password.value, BuyerByEmail(bs, email.value).value.password)))
    ensures r.Ok? ==> r.status == 200
    ensures r.Ok? ==> exists b :: b in bs && b.email == email.value && r.value == ProfileOf(b) && h.verify(password.value, b.password)
    ensures (email.Some? && password.Some? && BuyerByEmail(bs, email.value).Some? &&
       h.verify(password.value, BuyerByEmail(bs, email.value).value.password)) ==>
      r == Ok(200, ProfileOf(BuyerByEmail(bs, email.value).value))
    ensures r.Ok? || r.Err?
  {
    if email.None? then Err(500, LoginFailed)
    else match BuyerByEmail(bs, email.value)
      case None => Err(401, InvalidCredentials)
      case Some(b) =>
        if password.None? then Err(500, ValidateFailed)
        else if !h.verify(password.value, b.password) then Err(401, InvalidCredentials)
        else Ok(200, ProfileOf(b))
  }

  /** The registration branch. */
  method Register(db: Store, h: Hasher, q: BuyerAuthRequest, now: int)
    returns (r: Response<BuyerProfile, BuyerAuthError>)
    requires db.Valid()
    modifies db
    ensures db.Valid()
    ensures unchanged(db`products, db`farmers, db`admins, db`carts, db`cartItems, db`orders, db`chats, db`notifications)
    ensures !RegistrationComplete(q) ==> r == Err(400, MissingRegistrationFields) && unchanged(db)
    ensures RegistrationComplete(q) && BuyerByEmail(old(db.buyers), q.email.value).Some? ==>
      r == Err(400, EmailTaken) && unchanged(db)
    ensures RegistrationComplete(q) && BuyerByEmail(old(db.buyers), q.email.value).None? ==>
      && db.buyers == old(db.buyers) + [NewBuyer(q, h, old(db.nextId), db.defaults.userStatus, now)]
      && db.nextId == old(db.nextId) + 1
      && r == Ok(201, ProfileOf(NewBuyer(q, h, old(db.nextId), db.defaults.userStatus, now)))
  {
    if !RegistrationComplete(q) {
      return Err(400, MissingRegistrationFields);
    }
    var existing := BuyerByEmail(db.buyers, q.email.value);
    if existing.Some? {
      return Err(400, EmailTaken);
    }
    var buyer := NewBuyer(q, h, db.nextId, db.defaults.userStatus, now);
    db.buyers := db.buyers + [buyer];
    db.nextId := db.nextId + 1;
    r := Ok(201, ProfileOf(buyer));
  }

  /** The handler: the two actions are served, and anything else, a missing
      action included, is refused with 400. */
  method BuyerAuthPost(db: Store, h: Hasher, q: BuyerAuthRequest, now: int)
    returns (r: Response<BuyerReply, BuyerAuthError>)
    requires db.Valid()
    modifies db
    ensures db.Valid()
    ensures q.action != Some("register") ==> unchanged(db)
    ensures q.action != Some("register") && q.action != Some("login") ==> r == Err(400, InvalidAction)
    ensures q.action == Some("login") ==>
      var l := Login(db.buyers, h, q.email, q.password);
      r == if l.Ok? then Ok(l.status, LoggedIn(l.value)) else Err(l.status, l.error)
    ensures unchanged(db`products, db`farmers, db`admins, db`carts, db`cartItems, db`orders, db`chats, db`notifications)
    ensures q.action == Some("register") && !RegistrationComplete(q) ==>
      r == Err(400, MissingRegistrationFields) && unchanged(db)
    ensures q.action == Some("register") && RegistrationComplete(q) && BuyerByEmail(old(db.buyers), q.email.value).Some? ==>
      r == Err(400, EmailTaken) && unchanged(db)
    ensures q.action == Some("register") && RegistrationComplete(q) && BuyerByEmail(old(db.buyers), q.email.value).None? ==>
      && db.buyers == old(db.buyers) + [NewBuyer(q, h, old(db.nextId), db.defaults.userStatus, now)]
      && db.nextId == old(db.nextId) + 1
      && r == Ok(201, Registered(ProfileOf(NewBuyer(q, h, old(db.nextId), db.defaults.userStatus, now))))
  {
    if q.action == Some("register") {
      var reg := Register(db, h, q, now);
      r := if reg.Ok? then Ok(reg.status, Registered(reg.value)) else Err(reg.status, reg.error);
      return;
    }
    if q.action == Some("login") {
      var l := Login(db.buyers, h, q.email, q.password);
      r := if l.Ok? then Ok(l.status, LoggedIn(l.value)) else Err(l.status, l.error);
      return;
    }
    r := Err(400, InvalidAction);
  }

  /** Registering and then logging in with the same email and password
      succeeds and returns the new buyer, given a sound hasher. */
  lemma RegisterThenLogin(bs: seq<Buyer>, h: Hasher, q: BuyerAuthRequest, id: Id, status: UserStatus, now: int)
    requires Sound(h)
    requires RegistrationComplete(q) && BuyerByEmail(bs, q.email.value).None?
    ensures var b := NewBuyer(q, h, id, status, now);
      Login(bs + [b], h, q.email, q.password) == Ok(200, ProfileOf(b))
  {
    var b := NewBuyer(q, h, id, status, now);
    FindAppend(bs, b, (x: Buyer) => x.email == q.email.value);
    assert BuyerByEmail(bs + [b], q.email.value) == Some(b);
  }
}
