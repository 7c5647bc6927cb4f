/** `GET /api/buyer/products`: the catalog search.  A conjunctive filter
    over the product table, one of three orderings, and a projection that
    replaces the owner relation by the owner's full name. */
module BuyerProducts {
  import opened Common
  import opened Seqs
  import opened Text
  import opened Entities

  /** The query parameters.  Text parameters are `None` when absent; the
      price bounds are the numbers `parseFloat` reads from theirs, in the
      same units as a product's price divided by 100. */
  datatype SearchQuery = SearchQuery(
    name: Option<string>,
    category: Option<string>,
    farmLocation: Option<string>,
    minPrice: Option<real>,
    maxPrice: Option<real>,
    sort: Option<string>)

  datatype SearchError = SearchFailed

  /** A result row: the product's own columns and `farmerName`. */
  datatype ProductView = ProductView(
    id: Id,
    name: string,
    description: string,
    price: int,
    quantity: int,
    category: string,
    image: string,
    isOutOfStock: bool,
    createdAt: int,
    updatedAt: int,
    farmerName: string)

  /** `searchParams.get(x) || undefined`: an empty parameter is no filter. */
  function Effective(param: Option<string>): (r: Option<string>)
    ensures r.Some? <==> Present(param)
    ensures r.Some? ==> r == param
  {
    if Present(param) then param else None
  }

  /** The lower bound: `parseFloat(minPrice || '0')`. */
  function LowerBound(q: SearchQuery): real
  {
    if q.minPrice.Some? then q.minPrice.value else 0.0
  }

  /** The sort key: `sort || 'newest'`. */
  function SortKey(q: SearchQuery): string
  {
    if Present(q.sort) then q.sort.value else "newest"
  }

  function PriceOf(p: Product): real
  {
    p.price as real / 100.0
  }

  /** The `where: { AND: [...] }` clause.  Prisma's `contains` is modelled as
      a case-sensitive substring test. */
  predicate Matches(fs: seq<Farmer>, q: SearchQuery, p: Product)
  {
    && (Effective(q.name).Some? ==> Contains(p.name, Effective(q.name).value))
    && (Effective(q.category).Some? ==> p.category == Effective(q.category).value)
    && (Effective(q.farmLocation).Some? ==>
          OwnerOf(p, fs).Some? && Contains(OwnerOf(p, fs).value.farmAddress, Effective(q.farmLocation).value))
    && PriceOf(p) >= LowerBound(q)
    && (q.maxPrice.Some? ==> PriceOf(p) <= q.maxPrice.value)
  }

  // ---------------------------------------------------------------- orderings

  predicate CheaperFirst(a: Product, b: Product) { a.price <= b.price }
  predicate DearerFirst(a: Product, b: Product) { a.price >= b.price }
  predicate NewerFirst(a: Product, b: Product) { a.createdAt >= b.createdAt }

  lemma OrderingsAreOrders()
    ensures TotalPreorder(CheaperFirst) && TotalPreorder(DearerFirst) && TotalPreorder(NewerFirst)
  {
  }

  /** The `orderBy` chosen by the sort key; any other key leaves the rows in
      table order. */
  function Arrange(key: string, ps: seq<Product>): (r: seq<Product>)
    ensures multiset(r) == multiset(ps)
    ensures key == "price_asc" ==> forall i, j :: 0 <= i < j < |r| ==> r[i].price <= r[j].price
    ensures key == "price_desc" ==> forall i, j :: 0 <= i < j < |r| ==> r[i].price >= r[j].price
    ensures key == "newest" ==> forall i, j :: 0 <= i < j < |r| ==> r[i].createdAt >= r[j].createdAt
    ensures key != "price_asc" && key != "price_desc" && key != "newest" ==> r == ps
  {
    OrderingsAreOrders();
    if key == "price_asc" then SortBySorted(ps, CheaperFirst); SortBy(ps, CheaperFirst)
    else if key == "price_desc" then SortBySorted(ps, DearerFirst); SortBy(ps, DearerFirst)
    else if key == "newest" then SortBySorted(ps, NewerFirst); SortBy(ps, NewerFirst)
    else ps
  }

  // ---------------------------------------------------------------- projection

  /** `${farmer.firstName} ${farmer.lastName}` */
  function FullName(f: Farmer): (r: string)
    ensures |r| == |f.firstName| + 1 + |f.lastName|
    ensures r[..|f.firstName|] == f.firstName && r[|f.firstName|] == ' '
    ensures r[|f.firstName| + 1..] == f.lastName
  {
    f.firstName + " " + f.lastName
  }

  function ViewOf(p: Product, owner: Farmer): ProductView
  {
    ProductView(p.id, p.name, p.description, p.price, p.quantity, p.category, p.image,
                p.isOutOfStock, p.createdAt, p.updatedAt, FullName(owner))
  }

  predicate Owned(fs: seq<Farmer>, ps: seq<Product>)
  {
    forall k :: 0 <= k < |ps| ==> OwnerOf(ps[k], fs).Some?
  }

  /** `products.map(...)`, one view per row, in order. */
  function Views(fs: seq<Farmer>, ps: seq<Product>): (r: seq<ProductView>)
    requires Owned(fs, ps)
    ensures |r| == |ps|
    ensures forall k :: 0 <= k < |ps| ==> r[k] == ViewOf(ps[k], OwnerOf(ps[k], fs).value)
  {
    if |ps| == 0 then []
    else
      assert Owned(fs, ps[1..]) by {
        forall k | 0 <= k < |ps[1..]| ensures OwnerOf(ps[1..][k], fs).Some? {
          assert ps[1..][k] == ps[k + 1];
        }
      }
      [ViewOf(ps[0], OwnerOf(ps[0], fs).value)] + Views(fs, ps[1..])
  }

  // ---------------------------------------------------------------- handler

  /** The rows the filter selects, in table order. */
  function Selection(fs: seq<Farmer>, ps: seq<Product>, q: SearchQuery): (r: seq<Product>)
    ensures forall p :: p in r <==> p in ps && Matches(fs, q, p)
    ensures forall p :: p in ps && Matches(fs, q, p) ==> multiset(r)[p] == multiset(ps)[p]
  {
    FilterCounts(ps, (p: Product) => Matches(fs, q, p));
    Filter(ps, (p: Product) => Matches(fs, q, p))
  }

  /** The handler, a read.  It answers 500 exactly when a selected product
      has no owner row (the projection dereferences it); otherwise one view
      per selected product, in the chosen order. */
  function Search(fs: seq<Farmer>, ps: seq<Product>, q: SearchQuery): (r: Response<seq<ProductView>, SearchError>)
    ensures r.Ok? || r.Err?
    ensures r.Err? <==> exists p :: p in ps && Matches(fs, q, p) && OwnerOf(p, fs).None?
    ensures r.Err? ==> r == Err(500, SearchFailed)
    ensures r.Ok? ==> r.status == 200 && |r.value| == |Selection(fs, ps, q)|
    ensures r.Ok? ==> forall k :: 0 <= k < |r.value| ==>
      exists p :: p in ps && Matches(fs, q, p) && OwnerOf(p, fs).Some? && r.value[k] == ViewOf(p, OwnerOf(p, fs).value)
    ensures r.Ok? ==> forall p :: p in ps && Matches(fs, q, p) ==>
      OwnerOf(p, fs).Some? && ViewOf(p, OwnerOf(p, fs).value) in r.value
    ensures r.Ok? && SortKey(q) == "price_asc" ==>
      forall i, j :: 0 <= i < j < |r.value| ==> r.value[i].price <= r.value[j].price
    ensures r.Ok? && SortKey(q) == "price_desc" ==>
      forall i, j :: 0 <= i < j < |r.value| ==> r.value[i].price >= r.value[j].price
    ensures r.Ok? && SortKey(q) == "newest" ==>
      forall i, j :: 0 <= i < j < |r.value| ==> r.value[i].createdAt >= r.value[j].createdAt
  {
    var arranged := Arranged(fs, ps, q);
    if Owned(fs, arranged) then
      SearchOk(fs, ps, q);
      SearchOkOrder(fs, ps, q);
      Ok(200, Views(fs, arranged))
    else
      SearchErr(fs, ps, q, arranged);
      Err(500, SearchFailed)
  }

  /** The selection in the order the sort key asks for. */
  function Arranged(fs: seq<Farmer>, ps: seq<Product>, q: SearchQuery): (r: seq<Product>)
    ensures multiset(r) == multiset(Selection(fs, ps, q))
  {
    Arrange(SortKey(q), Selection(fs, ps, q))
  }

  /** What an owned arrangement answers: one view per selected product. */
  lemma SearchOk(fs: seq<Farmer>, ps: seq<Product>, q: SearchQuery)
    requires Owned(fs, Arranged(fs, ps, q))
    ensures forall p :: p in ps && Matches(fs, q, p) ==> OwnerOf(p, fs).Some?
    ensures var v := Views(fs, Arranged(fs, ps, q));
      && |v| == |Selection(fs, ps, q)|
      && (forall k :: 0 <= k < |v| ==>
            exists p :: p in ps && Matches(fs, q, p) && OwnerOf(p, fs).Some? && v[k] == ViewOf(p, OwnerOf(p, fs).value))
      && (forall p :: p in ps && Matches(fs, q, p) ==> OwnerOf(p, fs).Some? && ViewOf(p, OwnerOf(p, fs).value) in v)
  {
    var arranged := Arranged(fs, ps, q);
    assert |arranged| == |multiset(arranged)|;
    SearchOkMembers(fs, ps, q, arranged);
    ViewsOfSelected(fs, ps, q, arranged);
    SelectedAreViewed(fs, ps, q, arranged);
  }

  lemma ViewsOfSelected(fs: seq<Farmer>, ps: seq<Product>, q: SearchQuery, arranged: seq<Product>)
    requires Owned(fs, arranged)
    requires forall k :: 0 <= k < |arranged| ==> arranged[k] in ps && Matches(fs, q, arranged[k])
    ensures var v := Views(fs, arranged);
      forall k :: 0 <= k < |v| ==>
        exists p :: p in ps && Matches(fs, q, p) && OwnerOf(p, fs).Some? && v[k] == ViewOf(p, OwnerOf(p, fs).value)
  {
    var v := Views(fs, arranged);
    forall k | 0 <= k < |v|
      ensures exists p :: p in ps && Matches(fs, q, p) && OwnerOf(p, fs).Some? && v[k] == ViewOf(p, OwnerOf(p, fs).value)
    {
      var p := arranged[k];
      assert p in ps && Matches(fs, q, p) && OwnerOf(p, fs).Some?;
      assert v[k] == ViewOf(p, OwnerOf(p, fs).value);
    }
  }

  lemma SelectedAreViewed(fs: seq<Farmer>, ps: seq<Product>, q: SearchQuery, arranged: seq<Product>)
    requires Owned(fs, arranged)
    requires forall p :: p in ps && Matches(fs, q, p) ==> p in arranged
    ensures forall p :: p in ps && Matches(fs, q, p) ==>
      OwnerOf(p, fs).Some? && ViewOf(p, OwnerOf(p, fs).value) in Views(fs, arranged)
  {
    var v := Views(fs, arranged);
    forall p | p in ps && Matches(fs, q, p)
      ensures OwnerOf(p, fs).Some? && ViewOf(p, OwnerOf(p, fs).value) in v
    {
      var k :| 0 <= k < |arranged| && arranged[k] == p;
      assert v[k] == ViewOf(p, OwnerOf(p, fs).value);
    }
  }

  /** The views keep the order of the arrangement they are taken from. */
  lemma SearchOkOrder(fs: seq<Farmer>, ps: seq<Product>, q: SearchQuery)
    requires Owned(fs, Arranged(fs, ps, q))
    ensures var v := Views(fs, Arranged(fs, ps, q));
      && (SortKey(q) == "price_asc" ==> forall i, j :: 0 <= i < j < |v| ==> v[i].price <= v[j].price)
      && (SortKey(q) == "price_desc" ==> forall i, j :: 0 <= i < j < |v| ==> v[i].price >= v[j].price)
      && (SortKey(q) == "newest" ==> forall i, j :: 0 <= i < j < |v| ==> v[i].createdAt >= v[j].createdAt)
  {
    var arranged := Arrange(SortKey(q), Selection(fs, ps, q));
    assert Arranged(fs, ps, q) == arranged;
    var v := Views(fs, arranged);
    forall i, j | 0 <= i < j < |v|
      ensures SortKey(q) == "price_asc" ==> v[i].price <= v[j].price
      ensures SortKey(q) == "price_desc" ==> v[i].price >= v[j].price
      ensures SortKey(q) == "newest" ==> v[i].createdAt >= v[j].createdAt
    {
      assert v[i].price == arranged[i].price && v[i].createdAt == arranged[i].createdAt;
      assert v[j].price == arranged[j].price && v[j].createdAt == arranged[j].createdAt;
    }
  }

  /** The views of an arrangement of the selection are exactly the views of
      the selected products. */
  lemma SearchOkMembers(fs: seq<Farmer>, ps: seq<Product>, q: SearchQuery, arranged: seq<Product>)
    requires multiset(arranged) == multiset(Selection(fs, ps, q))
    requires Owned(fs, arranged)
    ensures forall p :: p in ps && Matches(fs, q, p) ==> OwnerOf(p, fs).Some?
    ensures forall k :: 0 <= k < |arranged| ==>
      arranged[k] in ps && Matches(fs, q, arranged[k])
    ensures forall p :: p in ps && Matches(fs, q, p) ==> p in arranged
  {
    var selected := Selection(fs, ps, q);
    forall k | 0 <= k < |arranged| ensures arranged[k] in ps && Matches(fs, q, arranged[k]) {
      assert arranged[k] in multiset(arranged);
    }
    forall p | p in ps && Matches(fs, q, p) ensures p in arranged && OwnerOf(p, fs).Some? {
      assert p in multiset(selected);
      assert p in multiset(arranged);
      var k :| 0 <= k < |arranged| && arranged[k] == p;
    }
  }

  /** An arrangement with an unowned row comes from an unowned selected
      product, and conversely. */
  lemma SearchErr(fs: seq<Farmer>, ps: seq<Product>, q: SearchQuery, arranged: seq<Product>)
    requires multiset(arranged) == multiset(Selection(fs, ps, q))
    requires !Owned(fs, arranged)
    ensures exists p :: p in ps && Matches(fs, q, p) && OwnerOf(p, fs).None?
  {
    var k :| 0 <= k < |arranged| && OwnerOf(arranged[k], fs).None?;
    assert arranged[k] in multiset(arranged);
    assert arranged[k] in Selection(fs, ps, q);
  }
}
