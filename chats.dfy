/** `/api/chats`: opening the conversation between a buyer and a farmer
    (`POST`, find-or-create) and listing a user's conversations (`GET`). */
module Chats {
  import opened Common
  import opened Seqs
  import opened Entities
  import opened Db

  datatype ChatError = BuyerAndFarmerRequired | UserIdAndTypeRequired

  /** `chat.findFirst({ where: { buyerId, farmerId } })` */
  function FindChat(cs: seq<Chat>, buyerId: Id, farmerId: Id): (r: Option<Chat>)
    ensures r.Some? ==> r.value in cs && r.value.buyerId == buyerId && r.value.farmerId == farmerId
    ensures r.None? <==> forall c :: c in cs ==> c.buyerId != buyerId || c.farmerId != farmerId
  {
    Find(cs, (c: Chat) => c.buyerId == buyerId && c.farmerId == farmerId)
  }

  /** A chat for the pair, once inserted, is what the lookup finds. */
  lemma FindChatAfterInsert(cs: seq<Chat>, c: Chat)
    requires FindChat(cs, c.buyerId, c.farmerId).None?
    ensures FindChat(cs + [c], c.buyerId, c.farmerId) == Some(c)
  {
    FindAppend(cs, c, (x: Chat) => x.buyerId == c.buyerId && x.farmerId == c.farmerId);
  }

  /** The `POST` handler.  An existing chat for the pair is returned with
      200 and nothing is written; otherwise exactly one chat for the pair is
      inserted and returned with 201. */
  method OpenChat(db: Store, buyerId: Option<Id>, farmerId: Option<Id>, now: int)
    returns (r: Response<Chat, ChatError>)
    requires db.Valid()
    modifies db
    ensures db.Valid()
    ensures unchanged(db`products, db`farmers, db`buyers, db`admins, db`carts, db`cartItems, db`orders, db`notifications)
    ensures buyerId.None? || farmerId.None? ==> r == Err(400, BuyerAndFarmerRequired) && unchanged(db)
    ensures buyerId.Some? && farmerId.Some? && FindChat(old(db.chats), buyerId.value, farmerId.value).Some? ==>
      r == Ok(200, FindChat(old(db.chats), buyerId.value, farmerId.value).value) && unchanged(db)
    ensures buyerId.Some? && farmerId.Some? && FindChat(old(db.chats), buyerId.value, farmerId.value).None? ==>
      && r == Ok(201, Chat(old(db.nextId), buyerId.value, farmerId.value, now, now))
      && db.chats == old(db.chats) + [r.value]
      && db.nextId == old(db.nextId) + 1
  {
    if buyerId.None? || farmerId.None? {
      return Err(400, BuyerAndFarmerRequired);
    }
    var existing := FindChat(db.chats, buyerId.value, farmerId.value);
    if existing.Some? {
      return Ok(200, existing.value);
    }
    var chat := Chat(db.nextId, buyerId.value, farmerId.value, now, now);
    db.chats := db.chats + [chat];
    db.nextId := db.nextId + 1;
    r := Ok(201, chat);
  }

  /** Two requests in a row for the same pair: the second finds the chat
      the first returned, and the table grows by at most one row. */
  method OpenChatTwice(db: Store, buyerId: Id, farmerId: Id, now: int, later: int)
    returns (first: Response<Chat, ChatError>, second: Response<Chat, ChatError>)
    requires db.Valid()
    modifies db
    ensures db.Valid()
    ensures first.Ok? && second == Ok(200, first.value)
    ensures |old(db.chats)| <= |db.chats| <= |old(db.chats)| + 1
  {
    first := OpenChat(db, Some(buyerId), Some(farmerId), now);
    if first.status == 201 {
      FindChatAfterInsert(old(db.chats), first.value);
    }
    second := OpenChat(db, Some(buyerId), Some(farmerId), later);
  }

  predicate NewerChat(a: Chat, b: Chat) { a.updatedAt >= b.updatedAt }

  lemma NewerChatIsOrder()
    ensures TotalPreorder(NewerChat)
  {
  }

  /** Whose chats a `GET` lists: the buyer's when the type is `BUYER`, the
      farmer's for any other type. */
  predicate Involves(c: Chat, userId: Id, userType: string)
  {
    if userType == "BUYER" then c.buyerId == userId else c.farmerId == userId
  }

  /** The `GET` handler, a read: the user's chats, most recently updated
      first. */
  function ListChats(cs: seq<Chat>, userId: Option<Id>, userType: Option<string>)
    : (r: Response<seq<Chat>, ChatError>)
    ensures userId.None? || !Present(userType) <==> r == Err(400, UserIdAndTypeRequired)
    ensures r.Ok? ==> r.status == 200
    ensures r.Ok? ==> forall c :: c in r.value <==> c in cs && Involves(c, userId.value, userType.value)
    ensures r.Ok? ==> multiset(r.value) <= multiset(cs)
    ensures r.Ok? ==> forall c :: Involves(c, userId.value, userType.value) ==> multiset(r.value)[c] == multiset(cs)[c]
    ensures r.Ok? ==> forall i, j :: 0 <= i < j < |r.value| ==> r.value[i].updatedAt >= r.value[j].updatedAt
    ensures r.Ok? || r.Err?
  {
    if userId.None? || !Present(userType) then Err(400, UserIdAndTypeRequired)
    else
      var mine := Filter(cs, (c: Chat) => Involves(c, userId.value, userType.value));
      FilterCounts(cs, (c: Chat) => Involves(c, userId.value, userType.value));
      NewerChatIsOrder();
      SortBySorted(mine, NewerChat);
      SortByMembers(mine, NewerChat);
      Ok(200, SortBy(mine, NewerChat))
  }
}
