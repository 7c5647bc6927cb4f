/** `GET /api/users`: buyers and farmers in one list, each tagged with its
    role, optionally narrowed to one status, newest first. */
module Users {
  import opened Common
  import opened Seqs
  import opened Entities

  datatype Role = BUYER | FARMER

  /** The fields only one of the two roles has. */
  datatype RoleDetails =
    | BuyerDetails(paymentMethod: string, address: string)
    | FarmerDetails(farmName: string, farmAddress: string, farmSize: int)

  datatype UserView = UserView(
    id: Id,
    email: string,
    firstName: string,
    lastName: string,
    phoneNumber: string,
    status: UserStatus,
    createdAt: int,
    rejectionReason: Option<string>,
    role: Role,
    details: RoleDetails)

  /** A status text that is not one of the enum's names makes the query fail. */
  datatype UsersError = FetchFailed

  function ParseStatus(s: string): (r: Option<UserStatus>)
    ensures r == Some(PENDING) <==> s == "PENDING"
    ensures r == Some(ACTIVE) <==> s == "ACTIVE"
    ensures r == Some(DISABLED) <==> s == "DISABLED"
  {
    if s == "PENDING" then Some(PENDING)
    else if s == "ACTIVE" then Some(ACTIVE)
    else if s == "DISABLED" then Some(DISABLED)
    else None
  }

  function BuyerView(b: Buyer): (v: UserView)
    ensures v.role == BUYER && v.id == b.id && v.status == b.status
    ensures v.rejectionReason == b.rejectionReason && v.createdAt == b.createdAt
  {
    UserView(b.id, b.email, b.firstName, b.lastName, b.phoneNumber, b.status, b.createdAt,
             b.rejectionReason, BUYER, BuyerDetails(b.paymentMethod, b.address))
  }

  function FarmerView(f: Farmer): (v: UserView)
    ensures v.role == FARMER && v.id == f.id && v.status == f.status
    ensures v.rejectionReason == f.rejectionReason && v.createdAt == f.createdAt
  {
    UserView(f.id, f.email, f.firstName, f.lastName, f.phoneNumber, f.status, f.createdAt,
             f.rejectionReason, FARMER, FarmerDetails(f.farmName, f.farmAddress, f.farmSize))
  }

  function BuyerViews(bs: seq<Buyer>): (r: seq<UserView>)
    ensures |r| == |bs|
    ensures forall k :: 0 <= k < |bs| ==> r[k] == BuyerView(bs[k])
    ensures forall v :: v in r ==> exists b :: b in bs && v == BuyerView(b)
  {
    if |bs| == 0 then [] else [BuyerView(bs[0])] + BuyerViews(bs[1..])
  }

  function FarmerViews(fs: seq<Farmer>): (r: seq<UserView>)
    ensures |r| == |fs|
    ensures forall k :: 0 <= k < |fs| ==> r[k] == FarmerView(fs[k])
    ensures forall v :: v in r ==> exists f :: f in fs && v == FarmerView(f)
  {
    if |fs| == 0 then [] else [FarmerView(fs[0])] + FarmerViews(fs[1..])
  }

  /** `where: status ? { status } : undefined` */
  predicate Keeps(wanted: Option<UserStatus>, s: UserStatus)
  {
    wanted.None? || s == wanted.value
  }

  function BuyersWith(bs: seq<Buyer>, wanted: Option<UserStatus>): (r: seq<Buyer>)
    ensures forall b :: b in r <==> b in bs && Keeps(wanted, b.status)
  {
    Filter(bs, (b: Buyer) => Keeps(wanted, b.status))
  }

  function FarmersWith(fs: seq<Farmer>, wanted: Option<UserStatus>): (r: seq<Farmer>)
    ensures forall f :: f in r <==> f in fs && Keeps(wanted, f.status)
  {
    Filter(fs, (f: Farmer) => Keeps(wanted, f.status))
  }

  predicate NewerUser(a: UserView, b: UserView) { a.createdAt >= b.createdAt }

  lemma NewerUserIsOrder()
    ensures TotalPreorder(NewerUser)
  {
  }

  /** The handler, a read.  The result is a reordering of the tagged
      buyers followed by the tagged farmers that pass the status filter. */
  function ListUsers(bs: seq<Buyer>, fs: seq<Farmer>, status: Option<string>)
    : (r: Response<seq<UserView>, UsersError>)
    ensures r.Err? <==> Present(status) && ParseStatus(status.value).None?
    ensures r.Err? ==> r == Err(500, FetchFailed)
    ensures r.Ok? ==> r.status == 200
    ensures r.Ok? ==>
      var wanted := if Present(status) then ParseStatus(status.value) else None;
      && |r.value| == |BuyersWith(bs, wanted)| + |FarmersWith(fs, wanted)|
      && multiset(r.value) == multiset(BuyerViews(BuyersWith(bs, wanted)) + FarmerViews(FarmersWith(fs, wanted)))
      && (forall i, j :: 0 <= i < j < |r.value| ==> r.value[i].createdAt >= r.value[j].createdAt)
  {
    var wanted := if Present(status) then ParseStatus(status.value) else None;
    if Present(status) && wanted.None? then Err(500, FetchFailed)
    else
      var merged := BuyerViews(BuyersWith(bs, wanted)) + FarmerViews(FarmersWith(fs, wanted));
      NewerUserIsOrder();
      SortBySorted(merged, NewerUser);
      Ok(200, SortBy(merged, NewerUser))
  }

  /** Every listed user comes from one of the two tables, tagged with that
      table's role, and has the requested status when one was given. */
  lemma ListedUsersAreTagged(bs: seq<Buyer>, fs: seq<Farmer>, status: Option<string>)
    requires ListUsers(bs, fs, status).Ok?
    ensures var r := ListUsers(bs, fs, status).value;
      var wanted := if Present(status) then ParseStatus(status.value) else None;
      && (forall v :: v in r && wanted.Some? ==> v.status == wanted.value)
      && (forall v :: v in r && v.role == BUYER ==> exists b :: b in bs && Keeps(wanted, b.status) && v == BuyerView(b))
      && (forall v :: v in r && v.role == FARMER ==> exists f :: f in fs && Keeps(wanted, f.status) && v == FarmerView(f))
  {
    var r := ListUsers(bs, fs, status).value;
    var wanted := if Present(status) then ParseStatus(status.value) else None;
    var vb, vf := BuyerViews(BuyersWith(bs, wanted)), FarmerViews(FarmersWith(fs, wanted));
    assert r == SortBy(vb + vf, NewerUser);
    SortByMembers(vb + vf, NewerUser);
    forall v | v in r
      ensures wanted.Some? ==> v.status == wanted.value
      ensures v.role == BUYER ==> exists b :: b in bs && Keeps(wanted, b.status) && v == BuyerView(b)
      ensures v.role == FARMER ==> exists f :: f in fs && Keeps(wanted, f.status) && v == FarmerView(f)
    {
      assert v in vb + vf;
      if v in vb {
        TaggedBuyer(bs, wanted, v);
      } else {
        TaggedFarmer(fs, wanted, v);
      }
    }
  }

  lemma TaggedBuyer(bs: seq<Buyer>, wanted: Option<UserStatus>, v: UserView)
    requires v in BuyerViews(BuyersWith(bs, wanted))
    ensures v.role == BUYER && (wanted.Some? ==> v.status == wanted.value)
    ensures exists b :: b in bs && Keeps(wanted, b.status) && v == BuyerView(b)
  {
    var kb := BuyersWith(bs, wanted);
    var k :| 0 <= k < |kb| && BuyerViews(kb)[k] == v;
    assert kb[k] in kb;
  }

  lemma TaggedFarmer(fs: seq<Farmer>, wanted: Option<UserStatus>, v: UserView)
    requires v in FarmerViews(FarmersWith(fs, wanted))
    ensures v.role == FARMER && (wanted.Some? ==> v.status == wanted.value)
    ensures exists f :: f in fs && Keeps(wanted, f.status) && v == FarmerView(f)
  {
    var kf := FarmersWith(fs, wanted);
    var k :| 0 <= k < |kf| && FarmerViews(kf)[k] == v;
    assert kf[k] in kf;
  }

  /** Every user that passes the status filter is listed. */
  lemma FilteredUsersAreListed(bs: seq<Buyer>, fs: seq<Farmer>, status: Option<string>)
    requires ListUsers(bs, fs, status).Ok?
    ensures var r := ListUsers(bs, fs, status).value;
      var wanted := if Present(status) then ParseStatus(status.value) else None;
      && (forall b :: b in bs && Keeps(wanted, b.status) ==> BuyerView(b) in r)
      && (forall f :: f in fs && Keeps(wanted, f.status) ==> FarmerView(f) in r)
  {
    var r := ListUsers(bs, fs, status).value;
    var wanted := if Present(status) then ParseStatus(status.value) else None;
    var vb, vf := BuyerViews(BuyersWith(bs, wanted)), FarmerViews(FarmersWith(fs, wanted));
    assert r == SortBy(vb + vf, NewerUser);
    SortByMembers(vb + vf, NewerUser);
    forall b | b in bs && Keeps(wanted, b.status) ensures BuyerView(b) in r {
      ListedBuyer(bs, wanted, b);
      assert BuyerView(b) in vb + vf;
    }
    forall f | f in fs && Keeps(wanted, f.status) ensures FarmerView(f) in r {
      ListedFarmer(fs, wanted, f);
      assert FarmerView(f) in vb + vf;
    }
  }

  lemma ListedBuyer(bs: seq<Buyer>, wanted: Option<UserStatus>, b: Buyer)
    requires b in bs && Keeps(wanted, b.status)
    ensures BuyerView(b) in BuyerViews(BuyersWith(bs, wanted))
  {
    var kb := BuyersWith(bs, wanted);
    var k :| 0 <= k < |kb| && kb[k] == b;
    assert BuyerViews(kb)[k] == BuyerView(b);
  }

  lemma ListedFarmer(fs: seq<Farmer>, wanted: Option<UserStatus>, f: Farmer)
    requires f in fs && Keeps(wanted, f.status)
    ensures FarmerView(f) in FarmerViews(FarmersWith(fs, wanted))
  {
    var kf := FarmersWith(fs, wanted);
    var k :| 0 <= k < |kf| && kf[k] == f;
    assert FarmerViews(kf)[k] == FarmerView(f);
  }
}
