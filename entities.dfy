/** The rows of the marketplace's tables.  Identifiers are numbers handed
    out by the store; timestamps are integers; prices are integer cents. */
module Entities {
  import opened Common
  import opened Seqs

  type Id = nat

  datatype UserStatus = PENDING | ACTIVE | DISABLED

  datatype OrderStatus = OrderPending | DELIVERED | APPROVED | COMING

  datatype Product = Product(
    id: Id,
    farmerId: Id,
    name: string,
    description: string,
    price: int,
    quantity: int,
    category: string,
    image: string,
    isOutOfStock: bool,
    createdAt: int,
    updatedAt: int)

  datatype Farmer = Farmer(
    id: Id,
    email: string,
    password: string,
    firstName: string,
    lastName: string,
    farmName: string,
    farmAddress: string,
    farmSize: int,
    phoneNumber: string,
    status: UserStatus,
    rejectionReason: Option<string>,
    createdAt: int)

  datatype Buyer = Buyer(
    id: Id,
    email: string,
    password: string,
    firstName: string,
    lastName: string,
    paymentMethod: string,
    address: string,
    phoneNumber: string,
    status: UserStatus,
    rejectionReason: Option<string>,
    createdAt: int)

  /** Admin registration validates nothing, so the contact fields may be
      absent from the stored row. */
  datatype Admin = Admin(
    id: Id,
    email: string,
    password: string,
    firstName: Option<string>,
    lastName: Option<string>,
    phoneNumber: Option<string>,
    createdAt: int)

  datatype Cart = Cart(id: Id, buyerId: Id)

  datatype CartItem = CartItem(id: Id, cartId: Id, productId: Id, quantity: int)

  datatype OrderItem = OrderItem(productId: Id, quantity: int)

  datatype Order = Order(
    id: Id,
    buyerId: Id,
    totalPrice: int,
    status: OrderStatus,
    items: seq<OrderItem>,
    createdAt: int)

  datatype Chat = Chat(id: Id, buyerId: Id, farmerId: Id, createdAt: int, updatedAt: int)

  datatype Notification = Notification(id: Id, farmerId: Id, message: string, isRead: bool, createdAt: int)

  // ---------------------------------------------------------------- lookups

  /** `product.findUnique({ where: { id } })` */
  function FindProduct(ps: seq<Product>, id: Id): (r: Option<Product>)
    ensures r.Some? ==> r.value in ps && r.value.id == id
    ensures r.None? <==> forall p :: p in ps ==> p.id != id
  {
    Find(ps, (p: Product) => p.id == id)
  }

  /** `farmer.findUnique({ where: { id } })` */
  function FindFarmer(fs: seq<Farmer>, id: Id): (r: Option<Farmer>)
    ensures r.Some? ==> r.value in fs && r.value.id == id
    ensures r.None? <==> forall f :: f in fs ==> f.id != id
  {
    Find(fs, (f: Farmer) => f.id == id)
  }

  /** `cart.findUnique({ where: { buyerId } })` */
  function FindCartOf(cs: seq<Cart>, buyerId: Id): (r: Option<Cart>)
    ensures r.Some? ==> r.value in cs && r.value.buyerId == buyerId
    ensures r.None? <==> forall c :: c in cs ==> c.buyerId != buyerId
  {
    Find(cs, (c: Cart) => c.buyerId == buyerId)
  }

  /** The items of one cart, in table order. */
  function ItemsOfCart(items: seq<CartItem>, cartId: Id): (r: seq<CartItem>)
    ensures forall x :: x in r <==> x in items && x.cartId == cartId
    ensures forall x :: multiset(r)[x] == if x.cartId == cartId then multiset(items)[x] else 0
  {
    FilterCounts(items, (x: CartItem) => x.cartId == cartId);
    Filter(items, (x: CartItem) => x.cartId == cartId)
  }

  /** The order of the selected items: a single row is kept exactly when it
      belongs to the cart, and selecting from two runs of rows selects from
      each and keeps the first run's items before the second's. */
  lemma ItemsOfCartInOrder(a: seq<CartItem>, b: seq<CartItem>, cartId: Id)
    ensures ItemsOfCart(a + b, cartId) == ItemsOfCart(a, cartId) + ItemsOfCart(b, cartId)
    ensures forall x :: ItemsOfCart([x], cartId) == if x.cartId == cartId then [x] else []
  {
    FilterAppend(a, b, (x: CartItem) => x.cartId == cartId);
    forall x ensures ItemsOfCart([x], cartId) == if x.cartId == cartId then [x] else [] {
      ItemsOfCartOne(x, cartId);
    }
  }

  lemma ItemsOfCartOne(x: CartItem, cartId: Id)
    ensures ItemsOfCart([x], cartId) == if x.cartId == cartId then [x] else []
  {
    assert [x][1..] == [];
  }

  /** The owner of a product, through the `farmerId` relation. */
  function OwnerOf(p: Product, fs: seq<Farmer>): Option<Farmer>
  {
    FindFarmer(fs, p.farmerId)
  }

  // ---------------------------------------------------------------- orderings

  predicate NewerOrder(a: Order, b: Order) { a.createdAt >= b.createdAt }

  lemma NewerOrderIsOrder()
    ensures TotalPreorder(NewerOrder)
  {
  }

  /** `orderBy: { createdAt: 'desc' }` over orders. */
  function NewestOrdersFirst(os: seq<Order>): (r: seq<Order>)
    ensures multiset(r) == multiset(os)
    ensures forall i, j :: 0 <= i < j < |r| ==> r[i].createdAt >= r[j].createdAt
  {
    NewerOrderIsOrder();
    SortBySorted(os, NewerOrder);
    SortBy(os, NewerOrder)
  }
}
