/** The admin dashboard page: the per-field product filter, the product
    sort and its ten-row pages, the user tallies and tabs, and the state
    updates that follow an approve, reject, toggle or order-status change.
    Rows are the ones the page reads from `/api/users`, `/api/buyer/products`
    and `/api/orders`. */
module Dashboard {
  import opened Common
  import opened Seqs
  import opened Text
  import Entities
  import Users
  import BuyerProducts

  type UserView = Users.UserView
  type ProductView = BuyerProducts.ProductView

  /** `keyof Product`, the columns a product row is filtered and sorted by. */
  datatype ProductField =
    | Id | Name | Description | Price | Quantity | Category | Image
    | FarmerName | IsOutOfStock | CreatedAt | UpdatedAt

  // ---------------------------------------------------------------- the filter

  /** The date columns take the date branches of the filter, which depend on
      the browser's locale and are not part of this model. */
  predicate Filterable(field: ProductField)
  {
    field != CreatedAt && field != UpdatedAt
  }

  /** A column as `toString()` prints it.  Prices are cents, printed as
      the number of currency units the page holds. */
  function FieldText(p: ProductView, field: ProductField): string
    requires Filterable(field)
  {
    match field
    case Id => IntToString(p.id)
    case Name => p.name
    case Description => p.description
    case Price => CentsToString(p.price)
    case Quantity => IntToString(p.quantity)
    case Category => p.category
    case Image => p.image
    case FarmerName => p.farmerName
    case IsOutOfStock => if p.isOutOfStock then "true" else "false"
  }

  /** `value.split(sep).map(v => v.trim())` */
  function Terms(value: string, sep: char): (r: seq<string>)
    ensures |r| == |Split(value, sep)|
    ensures forall k :: 0 <= k < |r| ==> r[k] == Trim(Split(value, sep)[k])
  {
    TrimAll(Split(value, sep))
  }

  function TrimAll(parts: seq<string>): (r: seq<string>)
    ensures |r| == |parts|
    ensures forall k :: 0 <= k < |r| ==> r[k] == Trim(parts[k])
  {
    if |parts| == 0 then [] else [Trim(parts[0])] + TrimAll(parts[1..])
  }

  /** `x >= min && x <= max`, where a bound that did not parse (NaN) makes
      both comparisons false. */
  predicate Between(x: real, lo: Option<real>, hi: Option<real>)
  {
    lo.Some? && hi.Some? && lo.value <= x <= hi.value
  }

  function AsReal(n: Option<int>): Option<real>
  {
    if n.Some? then Some(n.value as real) else None
  }

  /** The price as the page holds it, in currency units. */
  function Units(p: ProductView): real
  {
    p.price as real / 100.0
  }

  /** `[min, max] = value.split("-").map(v => parseFloat(v.trim()))`: the
      first two pieces; any further piece is ignored. */
  predicate PriceBetween(p: ProductView, value: string)
    requires '-' in value
  {
    SplitsInTwo(value, '-');
    var t := Terms(value, '-');
    Between(Units(p), ParseFloat(t[0]), ParseFloat(t[1]))
  }

  /** The same with `parseInt`, against the quantity. */
  predicate QuantityBetween(p: ProductView, value: string)
    requires '-' in value
  {
    SplitsInTwo(value, '-');
    var t := Terms(value, '-');
    Between(p.quantity as real, AsReal(ParseInt(t[0])), AsReal(ParseInt(t[1])))
  }

  /** `text.toLowerCase().includes(term.toLowerCase())` */
  predicate Occurs(text: string, term: string)
  {
    Contains(Lower(text), Lower(term))
  }

  /** Some term is a case-insensitive substring of the text. */
  predicate AnyTerm(text: string, terms: seq<string>)
  {
    exists k :: 0 <= k < |terms| && Occurs(text, terms[k])
  }

  /** `filterProductsBasedOnField`, outside its date branches.  A `-` in the
      value makes a range for price and quantity; name, description and
      category (and the farmer name when the value has a comma) match any
      comma-separated term; every other case is one case-insensitive
      substring test on the column's text, untrimmed. */
  predicate FieldMatches(p: ProductView, field: ProductField, value: string)
    requires Filterable(field)
  {
    if field == Price && '-' in value then PriceBetween(p, value)
    else if field == Quantity && '-' in value then QuantityBetween(p, value)
    else if field == Name || field == Description || field == Category || (field == FarmerName && ',' in value) then
      AnyTerm(FieldText(p, field), Terms(value, ','))
    else Occurs(FieldText(p, field), value)
  }

  /** `filteredProducts` */
  function FilterProducts(ps: seq<ProductView>, field: ProductField, value: string): (r: seq<ProductView>)
    requires Filterable(field)
    ensures forall p :: p in r <==> p in ps && FieldMatches(p, field, value)
    ensures multiset(r) <= multiset(ps)
  {
    Filter(ps, (p: ProductView) => FieldMatches(p, field, value))
  }

  /** An empty filter value keeps every product, whichever column is chosen. */
  lemma EmptyValueMatches(p: ProductView, field: ProductField)
    requires Filterable(field)
    ensures FieldMatches(p, field, "")
  {
    ContainsEmpty(Lower(FieldText(p, field)));
    SplitWithout("", ',');
    assert Terms("", ',')[0] == "";
    assert Lower("") == "";
    assert Occurs(FieldText(p, field), "");
  }

  /** With an empty value the filtered list is the whole list, in order. */
  lemma EmptyValueKeepsAll(ps: seq<ProductView>, field: ProductField)
    requires Filterable(field)
    ensures FilterProducts(ps, field, "") == ps
  {
    forall k | 0 <= k < |ps| ensures FieldMatches(ps[k], field, "") {
      EmptyValueMatches(ps[k], field);
    }
    FilterKeepsAll(ps, (p: ProductView) => FieldMatches(p, field, ""));
  }

  /** A price filter `a-b` keeps exactly the products whose price lies
      between the two parsed bounds, both included. */
  lemma PriceRange(p: ProductView, a: string, b: string)
    requires '-' !in a && '-' !in b
    ensures FieldMatches(p, Price, a + "-" + b) <==>
      && ParseFloat(Trim(a)).Some? && ParseFloat(Trim(b)).Some?
      && ParseFloat(Trim(a)).value <= Units(p) <= ParseFloat(Trim(b)).value
  {
    var v := a + "-" + b;
    assert v == a + ['-'] + b;
    assert v[|a|] == '-';
    SplitPair(a, b, '-');
  }

  /** The same for quantities `a-b`, with whole-number bounds. */
  lemma QuantityRange(p: ProductView, a: string, b: string)
    requires '-' !in a && '-' !in b
    ensures FieldMatches(p, Quantity, a + "-" + b) <==>
      && ParseInt(Trim(a)).Some? && ParseInt(Trim(b)).Some?
      && ParseInt(Trim(a)).value <= p.quantity <= ParseInt(Trim(b)).value
  {
    var v := a + "-" + b;
    assert v == a + ['-'] + b;
    assert v[|a|] == '-';
    SplitPair(a, b, '-');
  }

  predicate TextField(field: ProductField)
  {
    field == Name || field == Description || field == Category
  }

  /** On name, description and category, `a,b` keeps a product exactly when
      the trimmed `a` or the trimmed `b` occurs in the column, ignoring case. */
  lemma TwoTerms(p: ProductView, field: ProductField, a: string, b: string)
    requires TextField(field)
    requires ',' !in a && ',' !in b
    ensures FieldMatches(p, field, a + "," + b) <==>
      Occurs(FieldText(p, field), Trim(a)) || Occurs(FieldText(p, field), Trim(b))
  {
    TermsOfPair(a, b);
    TermsMatch(p, field, a + "," + b);
    AnyTermPair(FieldText(p, field), Trim(a), Trim(b));
  }

  lemma TermsOfPair(a: string, b: string)
    requires ',' !in a && ',' !in b
    ensures Terms(a + "," + b, ',') == [Trim(a), Trim(b)]
  {
    assert a + "," + b == a + [','] + b;
    SplitPair(a, b, ',');
  }

  lemma AnyTermPair(text: string, x: string, y: string)
    ensures AnyTerm(text, [x, y]) <==> Occurs(text, x) || Occurs(text, y)
  {
    var t := [x, y];
    assert t[0] == x && t[1] == y;
    if AnyTerm(text, t) {
      var k :| 0 <= k < |t| && Occurs(text, t[k]);
      assert k == 0 || k == 1;
    }
  }

  lemma TermsMatch(p: ProductView, field: ProductField, value: string)
    requires TextField(field)
    ensures FieldMatches(p, field, value) == AnyTerm(FieldText(p, field), Terms(value, ','))
  {
  }

  /** Without a comma the term is trimmed first on those columns. */
  lemma OneTerm(p: ProductView, field: ProductField, a: string)
    requires TextField(field)
    requires ',' !in a
    ensures FieldMatches(p, field, a) <==> Occurs(FieldText(p, field), Trim(a))
  {
    SplitWithout(a, ',');
    var t := Terms(a, ',');
    assert t == [Trim(a)];
    if AnyTerm(FieldText(p, field), t) {
      var k :| 0 <= k < |t| && Occurs(FieldText(p, field), t[k]);
      assert k == 0;
    }
  }

  /** The column's case does not matter: a product whose name is lowered
      passes the same name filters. */
  lemma NameCaseIgnored(p: ProductView, value: string)
    ensures FieldMatches(p.(name := Lower(p.name)), Name, value) == FieldMatches(p, Name, value)
  {
    LowerIdempotent(p.name);
  }

  // ---------------------------------------------------------------- the sort

  datatype SortOrder = Asc | Desc

  predicate IsText(field: ProductField)
  {
    field == Name || field == Description || field == Category || field == Image || field == FarmerName
  }

  function TextKey(p: ProductView, field: ProductField): string
    requires IsText(field)
  {
    match field
    case Name => p.name
    case Description => p.description
    case Category => p.category
    case Image => p.image
    case FarmerName => p.farmerName
  }

  predicate IsNumber(field: ProductField)
  {
    field == Id || field == Price || field == Quantity || field == CreatedAt || field == UpdatedAt
  }

  function NumberKey(p: ProductView, field: ProductField): int
    requires IsNumber(field)
  {
    match field
    case Id => p.id
    case Price => p.price
    case Quantity => p.quantity
    case CreatedAt => p.createdAt
    case UpdatedAt => p.updatedAt
  }

  /** The comparator read as "a may come before b" in ascending order:
      text by `localeCompare` (here `LexLeq`), numbers and dates by
      difference, and a boolean column never reordered (it answers 0). */
  predicate Ascending(field: ProductField, a: ProductView, b: ProductView)
  {
    if IsText(field) then LexLeq(TextKey(a, field), TextKey(b, field))
    else if IsNumber(field) then NumberKey(a, field) <= NumberKey(b, field)
    else true
  }

  predicate Before(field: ProductField, order: SortOrder, a: ProductView, b: ProductView)
  {
    if order == Asc then Ascending(field, a, b) else Ascending(field, b, a)
  }

  /** The `sort` callback as a relation: `a` may stand before `b`. */
  function Comparator(field: ProductField, order: SortOrder): (ProductView, ProductView) -> bool
  {
    (a: ProductView, b: ProductView) => Before(field, order, a, b)
  }

  lemma BeforeIsOrder(field: ProductField, order: SortOrder)
    ensures TotalPreorder((a: ProductView, b: ProductView) => Before(field, order, a, b))
  {
    forall a: ProductView, b: ProductView ensures Before(field, order, a, b) || Before(field, order, b, a) {
      AscendingTotal(field, a, b);
    }
    forall a: ProductView, b: ProductView, c: ProductView | Before(field, order, a, b) && Before(field, order, b, c)
      ensures Before(field, order, a, c)
    {
      if order == Asc {
        AscendingTransitive(field, a, b, c);
      } else {
        AscendingTransitive(field, c, b, a);
      }
    }
  }

  lemma AscendingTotal(field: ProductField, a: ProductView, b: ProductView)
    ensures Ascending(field, a, b) || Ascending(field, b, a)
  {
    if IsText(field) {
      LexLeqTotal(TextKey(a, field), TextKey(b, field));
    }
  }

  lemma AscendingTransitive(field: ProductField, a: ProductView, b: ProductView, c: ProductView)
    requires Ascending(field, a, b) && Ascending(field, b, c)
    ensures Ascending(field, a, c)
  {
    if IsText(field) {
      LexLeqTransitive(TextKey(a, field), TextKey(b, field), TextKey(c, field));
    }
  }

  /** `filteredProducts.sort(...)`: a reordering of the rows, ordered by the
      chosen column and direction; `Array.sort` is stable, so rows level on
      that column keep their filtered order, and sorting on the boolean
      column keeps the rows where they were. */
  function SortProducts(ps: seq<ProductView>, field: ProductField, order: SortOrder): (r: seq<ProductView>)
    ensures multiset(r) == multiset(ps)
    ensures forall i, j :: 0 <= i < j < |r| ==> Before(field, order, r[i], r[j])
    ensures forall k :: Ties(r, Comparator(field, order), k) == Ties(ps, Comparator(field, order), k)
    ensures field == IsOutOfStock ==> r == ps
  {
    var leq := Comparator(field, order);
    BeforeIsOrder(field, order);
    SortBySorted(ps, leq);
    SortByStable(ps, leq);
    if field == IsOutOfStock then SortByIndifferent(ps, leq); SortBy(ps, leq)
    else SortBy(ps, leq)
  }

  // ---------------------------------------------------------------- pages

  const ItemsPerPage: nat := 10

  /** `Math.ceil(n / itemsPerPage)`: the fewest pages that hold `n` rows. */
  function PageCount(n: nat): (r: nat)
    ensures r * ItemsPerPage >= n
    ensures r > 0 ==> (r - 1) * ItemsPerPage < n
  {
    (n + ItemsPerPage - 1) / ItemsPerPage
  }

  function Min(a: nat, b: nat): nat
  {
    if a <= b then a else b
  }

  /** `.slice((page - 1) * itemsPerPage, page * itemsPerPage)`, clamped to
      the sequence as `slice` is. */
  function PageOf<T>(s: seq<T>, page: nat): (r: seq<T>)
    requires page >= 1
    ensures |r| <= ItemsPerPage
    ensures |r| == Min(ItemsPerPage, |s| - Min((page - 1) * ItemsPerPage, |s|))
    ensures forall k :: 0 <= k < |r| ==> (page - 1) * ItemsPerPage + k < |s| && r[k] == s[(page - 1) * ItemsPerPage + k]
  {
    s[Min((page - 1) * ItemsPerPage, |s|)..Min(page * ItemsPerPage, |s|)]
  }

  /** Every row of a page of the sorted filtered list is a stored row that
      passes the filter. */
  lemma PageRowsMatch(ps: seq<ProductView>, filterField: ProductField, filterValue: string,
                      sortField: ProductField, sortOrder: SortOrder, page: nat)
    requires page >= 1 && Filterable(filterField)
    ensures var r := PageOf(SortProducts(FilterProducts(ps, filterField, filterValue), sortField, sortOrder), page);
      forall p :: p in r ==> p in ps && FieldMatches(p, filterField, filterValue)
  {
    var filtered := FilterProducts(ps, filterField, filterValue);
    var sorted := SortProducts(filtered, sortField, sortOrder);
    var r := PageOf(sorted, page);
    forall p | p in r ensures p in ps && FieldMatches(p, filterField, filterValue) {
      var k :| 0 <= k < |r| && r[k] == p;
      assert p in multiset(sorted);
      assert p in filtered;
    }
  }

  /** A page of a sorted list is itself sorted. */
  lemma PageRowsOrdered(s: seq<ProductView>, field: ProductField, order: SortOrder, page: nat)
    requires page >= 1
    requires forall i, j :: 0 <= i < j < |s| ==> Before(field, order, s[i], s[j])
    ensures var r := PageOf(s, page);
      forall i, j :: 0 <= i < j < |r| ==> Before(field, order, r[i], r[j])
  {
    var r := PageOf(s, page);
    var start := (page - 1) * ItemsPerPage;
    forall i, j | 0 <= i < j < |r| ensures Before(field, order, r[i], r[j]) {
      assert r[i] == s[start + i] && r[j] == s[start + j];
    }
  }

  /** Pages from the first to the `n`th, one after another. */
  function PagesUpTo<T>(s: seq<T>, n: nat): seq<T>
  {
    if n == 0 then [] else PagesUpTo(s, n - 1) + PageOf(s, n)
  }

  lemma {:induction false} PagesUpToPrefix<T>(s: seq<T>, n: nat)
    ensures PagesUpTo(s, n) == s[..Min(n * ItemsPerPage, |s|)]
  {
    if n > 0 {
      PagesUpToPrefix(s, n - 1);
      var lo, hi := Min((n - 1) * ItemsPerPage, |s|), Min(n * ItemsPerPage, |s|);
      assert s[..lo] + s[lo..hi] == s[..hi];
    }
  }

  /** The pages a product count allows show every row exactly once, in
      order. */
  lemma PagesCoverAll<T>(s: seq<T>)
    ensures PagesUpTo(s, PageCount(|s|)) == s
  {
    PagesUpToPrefix(s, PageCount(|s|));
  }

  /** A page past the last one the rows fill is empty, and every page up to
      it has a row. */
  lemma PageEmptyIffPastEnd<T>(s: seq<T>, page: nat)
    requires page >= 1
    ensures PageOf(s, page) == [] <==> page > PageCount(|s|)
  {
  }

  // ---------------------------------------------------------------- users

  datatype UserCounts = UserCounts(pending: nat, active: nat, disabled: nat, all: nat)

  /** `users.filter(u => u.status === status).length` */
  function CountStatus(us: seq<UserView>, status: Entities.UserStatus): nat
  {
    |Filter(us, (u: UserView) => u.status == status)|
  }

  lemma CountStatusStep(us: seq<UserView>, status: Entities.UserStatus)
    requires |us| > 0
    ensures CountStatus(us, status) == (if us[0].status == status then 1 else 0) + CountStatus(us[1..], status)
  {
    var p := (u: UserView) => u.status == status;
    assert Filter(us, p) == if p(us[0]) then [us[0]] + Filter(us[1..], p) else Filter(us[1..], p);
  }

  /** `userCounts` */
  function Counts(us: seq<UserView>): UserCounts
  {
    UserCounts(CountStatus(us, Entities.PENDING), CountStatus(us, Entities.ACTIVE), CountStatus(us, Entities.DISABLED), |us|)
  }

  /** Every user has one of the three statuses, so the three tallies add up
      to the total. */
  lemma {:induction false} CountsAddUp(us: seq<UserView>)
    ensures Counts(us).pending + Counts(us).active + Counts(us).disabled == Counts(us).all
  {
    if |us| > 0 {
      CountsAddUp(us[1..]);
      CountStatusStep(us, Entities.PENDING);
      CountStatusStep(us, Entities.ACTIVE);
      CountStatusStep(us, Entities.DISABLED);
    }
  }

  datatype Tab = PendingTab | ActiveTab | DisabledTab | AllTab | AllProductsTab | AllOrdersTab

  /** The user list's filter for the active tab. */
  predicate ShownOn(tab: Tab, u: UserView)
  {
    match tab
    case PendingTab => u.status == Entities.PENDING
    case ActiveTab => u.status == Entities.ACTIVE
    case DisabledTab => u.status == Entities.DISABLED
    case AllTab => true
    case AllProductsTab => false
    case AllOrdersTab => false
  }

  function TabUsers(us: seq<UserView>, tab: Tab): (r: seq<UserView>)
    ensures forall u :: u in r <==> u in us && ShownOn(tab, u)
  {
    Filter(us, (u: UserView) => ShownOn(tab, u))
  }

  /** Each status tab lists exactly as many users as its tally says, the
      "all" tab lists every user in order, and the product and order tabs
      list none. */
  lemma TabsMatchCounts(us: seq<UserView>)
    ensures |TabUsers(us, PendingTab)| == Counts(us).pending
    ensures |TabUsers(us, ActiveTab)| == Counts(us).active
    ensures |TabUsers(us, DisabledTab)| == Counts(us).disabled
    ensures TabUsers(us, AllTab) == us
    ensures TabUsers(us, AllProductsTab) == [] && TabUsers(us, AllOrdersTab) == []
  {
    FilterSame(us, (u: UserView) => ShownOn(PendingTab, u), (u: UserView) => u.status == Entities.PENDING);
    FilterSame(us, (u: UserView) => ShownOn(ActiveTab, u), (u: UserView) => u.status == Entities.ACTIVE);
    FilterSame(us, (u: UserView) => ShownOn(DisabledTab, u), (u: UserView) => u.status == Entities.DISABLED);
    FilterKeepsAll(us, (u: UserView) => ShownOn(AllTab, u));
    NothingShown(us, AllProductsTab);
    NothingShown(us, AllOrdersTab);
  }

  lemma NothingShown(us: seq<UserView>, tab: Tab)
    requires tab == AllProductsTab || tab == AllOrdersTab
    ensures TabUsers(us, tab) == []
  {
    FilterKeepsNone(us, (u: UserView) => ShownOn(tab, u));
  }

  // ---------------------------------------------------------------- updates

  /** `users.map(user => user.id === userId ? updated : user)` */
  function ReplaceUser(us: seq<UserView>, userId: Entities.Id, updated: UserView): (r: seq<UserView>)
    ensures |r| == |us|
    ensures forall k :: 0 <= k < |us| ==> r[k] == if us[k].id == userId then updated else us[k]
  {
    if |us| == 0 then [] else [if us[0].id == userId then updated else us[0]] + ReplaceUser(us[1..], userId, updated)
  }

  /** Every other user is still listed, a matching user is replaced by the
      answer, and without a matching id the list is as it was. */
  lemma ReplaceOnlyMatch(us: seq<UserView>, userId: Entities.Id, updated: UserView)
    ensures forall u :: u in us && u.id != userId ==> u in ReplaceUser(us, userId, updated)
    ensures (exists u :: u in us && u.id == userId) ==> updated in ReplaceUser(us, userId, updated)
    ensures (forall u :: u in us ==> u.id != userId) ==> ReplaceUser(us, userId, updated) == us
  {
    var r := ReplaceUser(us, userId, updated);
    forall u | u in us && u.id != userId ensures u in r {
      var k :| 0 <= k < |us| && us[k] == u;
      assert r[k] == u;
    }
    if exists u :: u in us && u.id == userId {
      var u :| u in us && u.id == userId;
      var k :| 0 <= k < |us| && us[k] == u;
      assert r[k] == updated;
    }
  }

  /** Applying the same answer again changes nothing more. */
  lemma ReplaceIdempotent(us: seq<UserView>, updated: UserView)
    ensures ReplaceUser(ReplaceUser(us, updated.id, updated), updated.id, updated) == ReplaceUser(us, updated.id, updated)
  {
  }

  /** `orders.map(o => o.id === orderId ? { ...o, status } : o)` */
  function SetOrderStatus(os: seq<Entities.Order>, orderId: Entities.Id, status: Entities.OrderStatus)
    : (r: seq<Entities.Order>)
    ensures |r| == |os|
    ensures forall k :: 0 <= k < |os| ==> r[k] == if os[k].id == orderId then os[k].(status := status) else os[k]
  {
    if |os| == 0 then []
    else [if os[0].id == orderId then os[0].(status := status) else os[0]] + SetOrderStatus(os[1..], orderId, status)
  }

  /** What an update request answered: the request failed (the handler's
      catch), or it answered with a user or without one. */
  datatype UserReply = RequestFailed | Answered(user: Option<UserView>)

  // ---------------------------------------------------------------- the page state

  /** The page's state variables. */
  class DashboardPage {
    var users: seq<UserView>
    var products: seq<ProductView>
    var orders: seq<Entities.Order>
    var activeTab: Tab
    var sortField: ProductField
    var sortOrder: SortOrder
    var filterField: ProductField
    var filterValue: string
    var currentPage: nat
    var rejectionReason: string
    var isModalOpen: bool

    /** Pages are numbered from one, and the page-change guard never lets
        the current page below that. */
    ghost predicate Valid()
      reads this
    {
      currentPage >= 1
    }

    /** The initial `useState` values. */
    constructor()
      ensures Valid()
      ensures users == [] && products == [] && orders == []
      ensures activeTab == PendingTab && sortField == Price && sortOrder == Asc
      ensures filterField == Name && filterValue == ""
      ensures currentPage == 1 && rejectionReason == "" && !isModalOpen
    {
      users, products, orders := [], [], [];
      activeTab, sortField, sortOrder := PendingTab, Price, Asc;
      filterField, filterValue := Name, "";
      currentPage, rejectionReason, isModalOpen := 1, "", false;
    }

    /** `totalPages`: counted over all products, not the filtered ones. */
    function TotalPages(): (r: nat)
      reads this
      ensures r * ItemsPerPage >= |products|
      ensures r > 0 ==> (r - 1) * ItemsPerPage < |products|
    {
      PageCount(|products|)
    }

    /** `paginatedProducts`: the current page of the sorted filtered rows. */
    function ShownProducts(): (r: seq<ProductView>)
      reads this
      requires Valid() && Filterable(filterField)
      ensures |r| <= ItemsPerPage
      ensures forall p :: p in r ==> p in products && FieldMatches(p, filterField, filterValue)
      ensures var s := SortProducts(FilterProducts(products, filterField, filterValue), sortField, sortOrder);
        var start := (currentPage - 1) * ItemsPerPage;
        && |r| == Min(ItemsPerPage, |s| - Min(start, |s|))
        && forall k :: 0 <= k < |r| ==> start + k < |s| && r[k] == s[start + k]
      ensures forall i, j :: 0 <= i < j < |r| ==> Before(sortField, sortOrder, r[i], r[j])
    {
      var sorted := SortProducts(FilterProducts(products, filterField, filterValue), sortField, sortOrder);
      PageRowsMatch(products, filterField, filterValue, sortField, sortOrder, currentPage);
      PageRowsOrdered(sorted, sortField, sortOrder, currentPage);
      PageOf(sorted, currentPage)
    }

    /** `handlePageChange`: a page between 1 and `totalPages` becomes
        current; any other request is ignored. */
    method HandlePageChange(newPage: int)
      requires Valid()
      modifies this
      ensures Valid()
      ensures currentPage == if 0 < newPage <= old(TotalPages()) then newPage else old(currentPage)
      ensures unchanged(this`users, this`products, this`orders, this`activeTab, this`sortField, this`sortOrder)
      ensures unchanged(this`filterField, this`filterValue, this`rejectionReason, this`isModalOpen)
    {
      if newPage > 0 && newPage <= TotalPages() {
        currentPage := newPage;
      }
    }

    /** `handleApprove` and `handleToggleStatus`, which differ only in the
        endpoint they call: a user in the answer replaces the user with that
        id; no user, or a failed request, leaves the list as it was. */
    method ApplyUserUpdate(userId: Entities.Id, reply: UserReply)
      requires Valid()
      modifies this
      ensures Valid()
      ensures users == if reply.Answered? && reply.user.Some? then ReplaceUser(old(users), userId, reply.user.value) else old(users)
      ensures unchanged(this`products, this`orders, this`activeTab, this`sortField, this`sortOrder, this`currentPage)
      ensures unchanged(this`filterField, this`filterValue, this`rejectionReason, this`isModalOpen)
    {
      if reply.Answered? && reply.user.Some? {
        users := ReplaceUser(users, userId, reply.user.value);
      }
    }

    /** `handleReject`: the same replacement, and once the request has
        answered (with or without a user) the modal closes and the reason
        is cleared; a failed request leaves both. */
    method HandleReject(userId: Entities.Id, reply: UserReply)
      requires Valid()
      modifies this
      ensures Valid()
      ensures users == if reply.Answered? && reply.user.Some? then ReplaceUser(old(users), userId, reply.user.value) else old(users)
      ensures reply.Answered? ==> !isModalOpen && rejectionReason == ""
      ensures reply.RequestFailed? ==> isModalOpen == old(isModalOpen) && rejectionReason == old(rejectionReason)
      ensures unchanged(this`products, this`orders, this`activeTab, this`sortField, this`sortOrder, this`currentPage)
      ensures unchanged(this`filterField, this`filterValue)
    {
      ApplyUserUpdate(userId, reply);
      if reply.Answered? {
        isModalOpen := false;
        rejectionReason := "";
      }
    }

    /** The order row's status `onChange`: after a successful `PATCH` only
        that order's status is replaced; a failed one changes nothing. */
    method ChangeOrderStatus(orderId: Entities.Id, status: Entities.OrderStatus, succeeded: bool)
      requires Valid()
      modifies this
      ensures Valid()
      ensures orders == if succeeded then SetOrderStatus(old(orders), orderId, status) else old(orders)
      ensures unchanged(this`users, this`products, this`activeTab, this`sortField, this`sortOrder, this`currentPage)
      ensures unchanged(this`filterField, this`filterValue, this`rejectionReason, this`isModalOpen)
    {
      if succeeded {
        orders := SetOrderStatus(orders, orderId, status);
      }
    }
  }
}
