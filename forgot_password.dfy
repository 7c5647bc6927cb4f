/** `POST /api/forgot-password`: a password reset by email, applied to the
    buyer and the farmer table alike. */
module ForgotPassword {
  import opened Common
  import opened Seqs
  import opened Entities
  import opened Db
  import opened Credentials
  import BuyerAuth
  import FarmerAuth

  datatype ResetError = EmailAndPasswordRequired | NoUserWithEmail

  datatype ResetReply = PasswordUpdated

  function BuyerIndex(bs: seq<Buyer>, email: string): Option<nat>
  {
    FindIndex(bs, (b: Buyer) => b.email == email)
  }

  function FarmerIndex(fs: seq<Farmer>, email: string): Option<nat>
  {
    FindIndex(fs, (f: Farmer) => f.email == email)
  }

  /** `buyer.update({ where: { email }, data: { password } })`: the buyer
      with that email gets the digest, and nothing else changes. */
  function ResetBuyers(bs: seq<Buyer>, email: string, digest: string): (r: seq<Buyer>)
    ensures |r| == |bs|
    ensures BuyerIndex(bs, email).None? ==> r == bs
    ensures BuyerIndex(bs, email).Some? ==>
      var i := BuyerIndex(bs, email).value;
      && r[i] == bs[i].(password := digest)
      && forall k :: 0 <= k < |bs| && k != i ==> r[k] == bs[k]
  {
    match BuyerIndex(bs, email)
    case None => bs
    case Some(i) => bs[i := bs[i].(password := digest)]
  }

  /** The same for the farmer table. */
  function ResetFarmers(fs: seq<Farmer>, email: string, digest: string): (r: seq<Farmer>)
    ensures |r| == |fs|
    ensures FarmerIndex(fs, email).None? ==> r == fs
    ensures FarmerIndex(fs, email).Some? ==>
      var i := FarmerIndex(fs, email).value;
      && r[i] == fs[i].(password := digest)
      && forall k :: 0 <= k < |fs| && k != i ==> r[k] == fs[k]
  {
    match FarmerIndex(fs, email)
    case None => fs
    case Some(i) => fs[i := fs[i].(password := digest)]
  }

  /** The handler.  The new password is hashed once, and the one digest is
      written to the buyer and to the farmer with that email, whichever
      exist.  An email in neither table changes nothing. */
  method ResetPassword(db: Store, h: Hasher, email: Option<string>, newPassword: Option<string>)
    returns (r: Response<ResetReply, ResetError>)
    requires db.Valid()
    modifies db
    ensures db.Valid()
    ensures unchanged(db`products, db`admins, db`carts, db`cartItems, db`orders, db`chats, db`notifications, db`nextId)
    ensures !Present(email) || !Present(newPassword) ==> r == Err(400, EmailAndPasswordRequired) && unchanged(db)
    ensures Present(email) && Present(newPassword) ==>
      var found := BuyerIndex(old(db.buyers), email.value).Some? || FarmerIndex(old(db.farmers), email.value).Some?;
      && (!found ==> r == Err(404, NoUserWithEmail) && unchanged(db))
      && (found ==>
            && r == Ok(200, PasswordUpdated)
            && db.buyers == ResetBuyers(old(db.buyers), email.value, h.hash(newPassword.value))
            && db.farmers == ResetFarmers(old(db.farmers), email.value, h.hash(newPassword.value)))
  {
    if !Present(email) || !Present(newPassword) {
      return Err(400, EmailAndPasswordRequired);
    }
    var buyer := BuyerIndex(db.buyers, email.value);
    var farmer := FarmerIndex(db.farmers, email.value);
    if buyer.None? && farmer.None? {
      return Err(404, NoUserWithEmail);
    }
    var digest := h.hash(newPassword.value);
    if buyer.Some? {
      var i := buyer.value;
      db.buyers := db.buyers[i := db.buyers[i].(password := digest)];
    }
    if farmer.Some? {
      var i := farmer.value;
      db.farmers := db.farmers[i := db.farmers[i].(password := digest)];
    }
    r := Ok(200, PasswordUpdated);
  }

  /** Replacing the matched row by one with the same email keeps it the
      first match. */
  lemma ResetKeepsBuyerMatch(bs: seq<Buyer>, email: string, digest: string)
    requires BuyerIndex(bs, email).Some?
    ensures BuyerAuth.BuyerByEmail(ResetBuyers(bs, email, digest), email)
      == Some(bs[BuyerIndex(bs, email).value].(password := digest))
  {
    var i := BuyerIndex(bs, email).value;
    var r := ResetBuyers(bs, email, digest);
    var j := FindIndex(r, (b: Buyer) => b.email == email);
    assert j.Some? && j.value <= i;
  }

  lemma ResetKeepsFarmerMatch(fs: seq<Farmer>, email: string, digest: string)
    requires FarmerIndex(fs, email).Some?
    ensures FarmerAuth.FarmerByEmail(ResetFarmers(fs, email, digest), email)
      == Some(fs[FarmerIndex(fs, email).value].(password := digest))
  {
    var i := FarmerIndex(fs, email).value;
    var r := ResetFarmers(fs, email, digest);
    var j := FindIndex(r, (f: Farmer) => f.email == email);
    assert j.Some? && j.value <= i;
  }

  /** After a reset, the new password logs the buyer in, given a sound
      hasher. */
  lemma ResetThenBuyerLogin(bs: seq<Buyer>, h: Hasher, email: string, newPassword: string)
    requires Sound(h)
    requires BuyerIndex(bs, email).Some?
    ensures BuyerAuth.Login(ResetBuyers(bs, email, h.hash(newPassword)), h, Some(email), Some(newPassword)).Ok?
  {
    ResetKeepsBuyerMatch(bs, email, h.hash(newPassword));
  }

  /** After a reset, the new password logs the farmer in, given a sound
      hasher. */
  lemma ResetThenFarmerLogin(fs: seq<Farmer>, h: Hasher, email: string, newPassword: string)
    requires Sound(h)
    requires FarmerIndex(fs, email).Some? && |email| > 0 && |newPassword| > 0
    ensures FarmerAuth.Login(ResetFarmers(fs, email, h.hash(newPassword)), h, Some(email), Some(newPassword)).Ok?
  {
    ResetKeepsFarmerMatch(fs, email, h.hash(newPassword));
  }
}
