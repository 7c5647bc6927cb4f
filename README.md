# Farmers market: a verified model of the request handlers and the admin dashboard

This project models the server side of a small farmers' marketplace (a
Next.js application over a Prisma database) and its admin dashboard page,
and proves properties of the model in Dafny.

The marketplace has buyers, farmers and admins. Farmers list products. A
buyer collects products in a cart and places orders, either by checking out
the cart or by sending an explicit list of lines. Buyers and farmers can
open a chat, and farmers receive notifications. Admins approve, reject and
disable accounts on a dashboard. That page also filters, sorts and pages
through the product catalog and changes order statuses.

## How the model is built

- **The database** is the class `Db.Store`. It has one `seq` field per table
  and a counter `nextId` that hands out identifiers. Its invariant `Valid()`
  says every stored id is below the counter and product ids are distinct.
  The column defaults the schema would fill in (order status, user status,
  out-of-stock flag) are constructor parameters, not assumed values.
- **Handlers that write** (place an order, check out, add to a cart,
  register, reset a password, open a chat, create or mark notifications,
  create a product) are methods that `modify` the store. Each one states
  its whole new state: which table grows by which row, and which tables are
  `unchanged`.
- **Handlers that only read** (searches, listings, logins, reading a cart)
  are functions over the table sequences.
- **Responses** are `Common.Response`: `Ok(status, value)`, `Err(status,
  error)`, or `NoResponse` when the handler returns nothing at all.
- **Request fields** are `Option`s. For a text field, `None` stands for a
  field that is absent, and `Present(s)` is a text field that JavaScript
  treats as true: present and non-empty. For an id field, `None` stands for
  an absent id; an id given as empty text has no counterpart (see
  `CartApi.AddToCart` under "Left out").
- **Numbers and text:**
  - Prices are integer cents.
  - Timestamps are integers, and the current time is a parameter `now`.
  - `parseInt`/`parseFloat` on decimal text are `Text.ParseInt`/
    `Text.ParseFloat`, with `None` for NaN. Exponents, `Infinity` and hex
    prefixes are not modelled (see "Left out").
  - Password hashing is a `Credentials.Hasher`: a pair of functions `hash`
    and `verify`. `Sound(h)` says that a password verifies against its own
    hash.
- **Orderings** (`orderBy`, `Array.sort`) are `Seqs.SortBy`, an insertion
  sort. It is proved to return an ordered permutation for any total
  preorder.

Some behaviour of the code is proved as it stands, and some of it is
surprising:

- The explicit-lines order handler checks every line against the stock as
  it was before the order. Two lines for the same product can therefore
  together take its stock below zero (`OrderV2.DuplicateLinesOverdraw`).
  When the lines name distinct products, no stock goes negative
  (`OrderV2.NoOverdrawWhenDistinct`).
- Cart checkout neither checks nor decrements stock.
- The dashboard counts its pages over all products, not over the filtered
  ones. A page at or below that count can still be empty
  (`Dashboard.PageEmptyIffPastEnd`).
- Adding the same product to a cart twice gives two separate lines
  (`CartApi.AddTwiceKeepsTwoLines`).

## Model

| member | source | states |
|---|---|---|
| OrderV2.LineRejection | src/app/api/orderv2/route.ts:24-48 | a line is refused exactly when it is malformed, names no product, or asks for more than the stock; a malformed line draws the 400 line error, an unknown product the 404 naming that id, and a quantity above the stock the 400 naming that product |
| OrderV2.FirstRejectedLine | src/app/api/orderv2/route.ts:21-58 | no line is refused exactly when every line is accepted (and then every line is well formed); otherwise the index returned is refused and every earlier line accepted |
| OrderV2.FirstRejectedAt | src/app/api/orderv2/route.ts:21-58 | a refused line preceded only by accepted lines is the one the loop stops at |
| OrderV2.ItemsOf | src/app/api/orderv2/route.ts:54-57 | the order items are the lines' (product, quantity) pairs, one per line, in order |
| OrderV2.TotalAppend | src/app/api/orderv2/route.ts:51-52 | the running total over two runs of items is the sum of their totals |
| OrderV2.Decrement | src/app/api/orderv2/route.ts:79-82 | a decrement lowers the quantity of the row with that id by the amount and leaves every other row and field as it was |
| OrderV2.DecrementAllEffect | src/app/api/orderv2/route.ts:78-83 | after the second loop every product keeps its place and all other fields, and its quantity drops by the total the items order of it |
| OrderV2.OrderedUnnamed | src/app/api/orderv2/route.ts:78-83 | a product no item names is ordered zero times |
| OrderV2.OrderedDistinct | src/app/api/orderv2/route.ts:78-83 | with distinct products in the items, the amount ordered of a named product is its one item's quantity |
| OrderV2.UnnamedUnchanged | src/app/api/orderv2/route.ts:78-83 | a product the order does not name keeps its row unchanged |
| OrderV2.FindProductAt | src/app/api/orderv2/route.ts:32-34 | in a table with distinct ids, looking up a row's id finds that row |
| OrderV2.NoOverdrawWhenDistinct | src/app/api/orderv2/route.ts:43-83 | when every line was accepted and the lines name distinct products, no product with non-negative stock ends below zero |
| OrderV2.NamedStockCovers | src/app/api/orderv2/route.ts:43-83 | under the same conditions, the amount ordered of each product is at most its stock |
| OrderV2.DuplicateLinesOverdraw | src/app/api/orderv2/route.ts:43-83 | two accepted lines of 1 for a product with stock 1 leave its stock at -1 |
| OrderV2.CheckLines | src/app/api/orderv2/route.ts:18-58 | the first loop answers the error of the first refused line, and none exactly when no line is refused; then it collects every line as an item and their price sum |
| OrderV2.DecrementStock | src/app/api/orderv2/route.ts:78-83 | the second loop leaves the product table equal to all decrements applied in order, and no other table changes |
| OrderV2.DecrementKeepsIds | src/app/api/orderv2/route.ts:78-83 | decrementing stock keeps product ids below the counter and distinct |
| OrderV2.CommitOrder | src/app/api/orderv2/route.ts:60-83 | the writes add one order row with the next id and the default status, then decrement the stock |
| OrderV2.InsertOrder | src/app/api/orderv2/route.ts:60-74 | the order row takes the next id and the counter moves past it; nothing else changes |
| OrderV2.PlaceOrder | src/app/api/orderv2/route.ts:6-96 | a missing buyer or an empty list gives 400; the first refused line gives its 400 or 404; in both cases the store is unchanged; otherwise 201 with one new order whose items are the lines and whose total is their price sum, and the stock is decremented |
| Orders.LinesOf | src/app/api/orders/route.ts:32-35 | each cart item becomes an order item with its product and quantity, in order |
| Orders.ReduceIsTotal | src/app/api/orders/route.ts:23-25 | the checkout's fold equals its start value plus the price sum of the order lines it creates |
| Orders.PlanCheckout | src/app/api/orders/route.ts:10-25 | a missing buyer gives 400; a missing or empty cart gives 400; a cart item with no product row gives 500; the plan succeeds exactly when the buyer has a non-empty cart whose items all have product rows, and then holds that cart and its items |
| Orders.PlaceCartOrder | src/app/api/orders/route.ts:23-40 | success adds one order at the items' price sum and deletes exactly that cart's items |
| Orders.Checkout | src/app/api/orders/route.ts:6-47 | a refusal leaves the store unchanged; success answers 201 with one new order mirroring the cart items at their price sum, and deletes exactly that cart's items; stock is untouched |
| Orders.DropCart | src/app/api/orders/route.ts:40 | the remaining items are exactly those of other carts |
| Orders.DropCartKeepsIds | src/app/api/orders/route.ts:40 | deleting items keeps the remaining ids below the counter |
| Orders.CommitCheckout | src/app/api/orders/route.ts:27-40 | the writes add the order row and delete that cart's items |
| Orders.CheckoutEmptiesOnlyThatCart | src/app/api/orders/route.ts:40 | after checkout the cart has no items, and an already empty cart leaves the items as they were |
| Orders.ListOrders | src/app/api/orders/route.ts:49-95 | 200 with exactly the selected orders (a buyer id wins over a farmer id; with neither, every order), each as often as stored, newest first |
| OrderHistory.DeliveredHistory | src/app/api/orders/history/route.ts:11-30 | no buyer id gives 400; otherwise 200 with exactly the buyer's delivered orders, each as often as stored, newest first |
| CartApi.AddToCart | src/app/api/cart/route.ts:7-38 | a method other than POST gives 405 allowing POST; no buyer gives 500; no cart gives 404; no such product gives 500; all of these leave the store unchanged; otherwise one new item in the buyer's cart and 201 |
| CartApi.AddTwiceKeepsTwoLines | src/app/api/cart/route.ts:20-30 | adding the same product twice leaves two more lines in that cart, never a merged one |
| CartApi.LinesFor | src/app/api/cart/route.ts:48-54 | each cart item is returned with the product it names, in order |
| CartApi.GetCart | src/app/api/cart/route.ts:41-63 | a method other than GET gives 405 allowing GET; otherwise 200, with null exactly when there is no buyer id or no cart, else that buyer's cart with one line per stored item of the cart, in table order, each paired with its product row |
| CartApi.Dispatch | src/app/api/cart/route.ts:66-74 | POST has every effect and answer of adding an item (the other tables unchanged, 500 for no buyer or no product, 404 for no cart, else the new item appended and the id counter advanced); GET reads as above; any other method gives 405 allowing both and changes nothing |
| BuyerProducts.Effective | src/app/api/buyer/products/route.ts:10-12 | an empty parameter is no filter |
| BuyerProducts.OrderingsAreOrders | src/app/api/buyer/products/route.ts:36-43 | the three orderings are total preorders |
| BuyerProducts.Arrange | src/app/api/buyer/products/route.ts:36-43 | a reordering of the rows: cheapest first, dearest first or newest first by key, and table order for any other key |
| BuyerProducts.FullName | src/app/api/buyer/products/route.ts:58 | first name, one space, last name |
| BuyerProducts.Views | src/app/api/buyer/products/route.ts:47-59 | one view per product, in order, with the owner's full name |
| BuyerProducts.Selection | src/app/api/buyer/products/route.ts:19-27 | exactly the products that pass every filter, each as often as stored |
| BuyerProducts.Search | src/app/api/buyer/products/route.ts:6-66 | 500 exactly when a selected product has no owner row; otherwise 200 with one view for each selected product and nothing else, in the order the sort key names |
| BuyerProducts.Arranged | src/app/api/buyer/products/route.ts:19-43 | the arranged rows are a reordering of the selection |
| BuyerProducts.SearchOk | src/app/api/buyer/products/route.ts:47-59 | with every selected row owned, the answer has one view per selected product, each view comes from a selected product, and every selected product is viewed |
| BuyerProducts.SearchOkOrder | src/app/api/buyer/products/route.ts:36-59 | the views keep the cheapest-first, dearest-first or newest-first order of the arrangement |
| BuyerProducts.SearchOkMembers | src/app/api/buyer/products/route.ts:19-43 | an owned arrangement of the selection holds exactly the selected products |
| BuyerProducts.SearchErr | src/app/api/buyer/products/route.ts:47-65 | an unowned row in the arrangement comes from an unowned selected product |
| FarmerProducts.ProductOf | src/app/api/farmer/products/route.ts:23-33 | the new row carries exactly the submitted fields, with a price and quantity that are not zero |
| FarmerProducts.NegativeValuesPass | src/app/api/farmer/products/route.ts:17-19 | a negative price and quantity pass the check, and a zero quantity does not |
| FarmerProducts.CreateProduct | src/app/api/farmer/products/route.ts:6-39 | an incomplete form gives 400 and inserts nothing; a complete one inserts exactly one product and answers it with 201 |
| Users.ParseStatus | src/app/api/users/route.ts:10-15 | only the three enum names are statuses |
| Users.BuyerView | src/app/api/users/route.ts:20-32 | a buyer is listed with its own id, status, date and reason, tagged as a buyer |
| Users.FarmerView | src/app/api/users/route.ts:35-48 | a farmer is listed with its own id, status, date and reason, tagged as a farmer |
| Users.BuyerViews | src/app/api/users/route.ts:20-32 | one view per buyer, in order |
| Users.FarmerViews | src/app/api/users/route.ts:35-48 | one view per farmer, in order |
| Users.BuyersWith | src/app/api/users/route.ts:10-12 | exactly the buyers with the requested status, or all of them |
| Users.FarmersWith | src/app/api/users/route.ts:13-15 | exactly the farmers with the requested status, or all of them |
| Users.NewerUserIsOrder | src/app/api/users/route.ts:51-53 | newest first is a total preorder |
| Users.ListUsers | src/app/api/users/route.ts:4-63 | 500 exactly when a status is given that is not a status; otherwise 200 with a reordering of the filtered buyers followed by the filtered farmers, newest first |
| Users.ListedUsersAreTagged | src/app/api/users/route.ts:10-53 | every listed user comes from the table its tag names and has the requested status |
| Users.FilteredUsersAreListed | src/app/api/users/route.ts:10-53 | every user with the requested status is listed |
| Users.TaggedBuyer | src/app/api/users/route.ts:20-32 | a tagged buyer view comes from a buyer with the requested status |
| Users.TaggedFarmer | src/app/api/users/route.ts:35-48 | a tagged farmer view comes from a farmer with the requested status |
| Users.ListedBuyer | src/app/api/users/route.ts:20-32 | every buyer with the requested status has its view among the buyer views |
| Users.ListedFarmer | src/app/api/users/route.ts:35-48 | every farmer with the requested status has its view among the farmer views |
| FarmerAuth.ProfileOf | src/app/api/farmer/auth/route.ts:81 | the answer carries every column of the row except the password |
| FarmerAuth.FarmerByEmail | src/app/api/farmer/auth/route.ts:50-52 | the lookup finds a farmer with that email exactly when one exists |
| FarmerAuth.NewFarmer | src/app/api/farmer/auth/route.ts:62-76 | the stored password is the hash of the submitted one |
| FarmerAuth.Login | src/app/api/farmer/auth/route.ts:95-140 | a missing email or password gives 400; an unknown email and a wrong password give the same 401; a found farmer whose password verifies gives 200 with that farmer's profile, and every 200 is such a profile |
| FarmerAuth.Register | src/app/api/farmer/auth/route.ts:31-92 | a missing field gives 400; a taken email gives 400; both leave the store unchanged; otherwise one new farmer and 201 |
| FarmerAuth.FarmerAuthPost | src/app/api/farmer/auth/route.ts:7-154 | no action gives 400; login answers as above and writes nothing; register gives 400 for an incomplete form or a taken email without writing, else appends the new farmer, advances the id counter and gives 201 with its profile; any other action gives 400 |
| FarmerAuth.RegisterThenLogin | src/app/api/farmer/auth/route.ts:62-124 | with a sound hasher, a registered farmer can log in with the registered password |
| BuyerAuth.ProfileOf | src/app/api/buyer/auth/route.ts:69 | the answer carries every column of the row except the password |
| BuyerAuth.BuyerByEmail | src/app/api/buyer/auth/route.ts:30-32 | the lookup finds a buyer with that email exactly when one exists |
| BuyerAuth.NewBuyer | src/app/api/buyer/auth/route.ts:42-64 | the stored password is the hash of the submitted one |
| BuyerAuth.Login | src/app/api/buyer/auth/route.ts:82-129 | a missing email gives 500 (the lookup fails); a missing password for a found buyer gives 500; an unknown email and a wrong password give the same 401; a found buyer whose password verifies gives 200 with that buyer's profile |
| BuyerAuth.Register | src/app/api/buyer/auth/route.ts:20-80 | a missing field gives 400; a taken email gives 400; both leave the store unchanged; otherwise one new buyer and 201 |
| BuyerAuth.BuyerAuthPost | src/app/api/buyer/auth/route.ts:7-143 | login answers as above and writes nothing; register gives 400 for an incomplete form or a taken email without writing, else appends the new buyer, advances the id counter and gives 201 with its profile; any other action gives 400 |
| BuyerAuth.RegisterThenLogin | src/app/api/buyer/auth/route.ts:42-113 | with a sound hasher, a registered buyer can log in with the registered password |
| AdminAuth.ProfileOf | src/app/api/auth/route.ts:41 | the answer carries every column of the row except the password |
| AdminAuth.AdminByEmail | src/app/api/auth/route.ts:14-16 | the lookup finds an admin with that email exactly when one exists |
| AdminAuth.NewAdmin | src/app/api/auth/route.ts:26-37 | the stored password is the hash of the submitted one; the contact fields are stored as given, possibly absent |
| AdminAuth.Login | src/app/api/auth/route.ts:46-71 | a missing email, or a found admin with a missing password, gives 500; an unknown email and a wrong password give the same 401; a found admin whose password verifies gives 200 with that admin's profile |
| AdminAuth.Register | src/app/api/auth/route.ts:12-43 | a missing email gives 500; a taken email gives 400; a missing password gives 500; these leave the store unchanged; otherwise one new admin and 200 |
| AdminAuth.AdminAuthPost | src/app/api/auth/route.ts:7-80 | login answers as above and writes nothing; register gives 500 for a missing email or password and 400 for a taken email without writing, else appends the new admin, advances the id counter and gives 200 with its profile; any other action returns no response and writes nothing |
| AdminAuth.RegisterThenLogin | src/app/api/auth/route.ts:26-65 | with a sound hasher, a registered admin can log in with the registered password |
| ForgotPassword.ResetBuyers | src/app/api/forgot-password/route.ts:36-42 | only the password of the first buyer with that email changes, to the new digest; without such a buyer nothing changes |
| ForgotPassword.ResetFarmers | src/app/api/forgot-password/route.ts:45-51 | only the password of the first farmer with that email changes, to the new digest; without such a farmer nothing changes |
| ForgotPassword.ResetPassword | src/app/api/forgot-password/route.ts:5-65 | a missing email or password gives 400; an email no buyer or farmer has gives 404; both leave the store unchanged; otherwise both tables are reset to the hash of the new password and 200 |
| ForgotPassword.ResetKeepsBuyerMatch | src/app/api/forgot-password/route.ts:36-42 | after a reset, the lookup by email finds the same buyer with the new password |
| ForgotPassword.ResetKeepsFarmerMatch | src/app/api/forgot-password/route.ts:45-51 | after a reset, the lookup by email finds the same farmer with the new password |
| ForgotPassword.ResetThenBuyerLogin | src/app/api/forgot-password/route.ts:34-42 | with a sound hasher, a buyer can log in with the new password after a reset |
| ForgotPassword.ResetThenFarmerLogin | src/app/api/forgot-password/route.ts:34-51 | with a sound hasher, a farmer can log in with the new password after a reset |
| Chats.FindChat | src/app/api/chats/route.ts:15-17 | a chat for the pair is found exactly when one exists |
| Chats.FindChatAfterInsert | src/app/api/chats/route.ts:15-29 | once a chat for a new pair is inserted, the lookup finds it |
| Chats.OpenChat | src/app/api/chats/route.ts:6-36 | a missing buyer or farmer gives 400; an existing chat is answered with 200 and nothing is written; otherwise one new chat for the pair and 201 |
| Chats.OpenChatTwice | src/app/api/chats/route.ts:15-31 | a second request for the same pair answers 200 with the chat the first returned; the table grows by at most one row |
| Chats.NewerChatIsOrder | src/app/api/chats/route.ts:54 | most recently updated first is a total preorder |
| Chats.ListChats | src/app/api/chats/route.ts:38-62 | a missing user id or type gives 400; otherwise 200 with exactly the user's chats (as buyer for the type BUYER, as farmer for any other), each as often as stored, most recently updated first |
| Notifications.NewerNotificationIsOrder | src/app/api/farmer/notifications/route.ts:19 | newest first is a total preorder |
| Notifications.ListNotifications | src/app/api/farmer/notifications/route.ts:6-27 | no farmer id gives 400; otherwise 200 with exactly the farmer's notifications, each as often as stored, newest first |
| Notifications.MarkRead | src/app/api/farmer/notifications/route.ts:39-42 | the farmer's unread rows become read and every other row stays |
| Notifications.MarkReadAllRead | src/app/api/farmer/notifications/route.ts:39-42 | afterwards every notification of the farmer is read |
| Notifications.MarkReadOnlyFlags | src/app/api/farmer/notifications/route.ts:39-42 | only the read flag can change, and other farmers' rows do not change at all |
| Notifications.MarkReadIdempotent | src/app/api/farmer/notifications/route.ts:39-42 | marking twice is marking once |
| Notifications.MarkAllRead | src/app/api/farmer/notifications/route.ts:29-49 | no farmer id gives 400 and writes nothing; otherwise the update above and 200 |
| Notifications.CreateNotification | src/app/api/farmer/notifications/route.ts:51-74 | a missing farmer id or message gives 400 and writes nothing; otherwise one new unread notification and 201 |
| Entities.FindProduct | src/app/api/orderv2/route.ts:32-34 | a product with that id is found exactly when one exists |
| Entities.FindCartOf | src/app/api/orders/route.ts:14-17 | the buyer's cart is found exactly when one exists |
| Entities.ItemsOfCart | src/app/api/orders/route.ts:14-17 | exactly the items of that cart, each as often as stored |
| Entities.ItemsOfCartInOrder | src/app/api/orders/route.ts:14-17 | the selection keeps table order: one row is kept exactly when it is the cart's, and a concatenation selects run by run |
| Entities.FindFarmer | src/app/api/buyer/products/route.ts:28-35 | the owner row of a product is found exactly when a farmer has its id |
| Entities.NewerOrderIsOrder | src/app/api/orders/route.ts:64 | newest first is a total preorder |
| Entities.NewestOrdersFirst | src/app/api/orders/route.ts:64 | a reordering of the orders, newest first |
| Text.Split | src/app/dashboard/page.tsx:212 | at least one piece, and no piece holds the separator |
| Text.JoinSplit | src/app/dashboard/page.tsx:212 | joining the pieces with the separator gives the text back |
| Text.SplitPair | src/app/dashboard/page.tsx:206-216 | two separator-free texts around one separator split into exactly those two |
| Text.SplitWithout | src/app/dashboard/page.tsx:212 | a text without the separator is one piece |
| Text.SplitsInTwo | src/app/dashboard/page.tsx:205-209 | a text holding the separator splits into at least two pieces |
| Text.Trim | src/app/dashboard/page.tsx:212 | the result is a contiguous piece of the text with only white space before and after it, and it neither starts nor ends with white space |
| Text.Lower | src/app/dashboard/page.tsx:217 | each character is lowered in place |
| Text.LowerIdempotent | src/app/dashboard/page.tsx:217 | lowering twice is lowering once |
| Text.ContainsEmpty | src/app/dashboard/page.tsx:237-240 | every text contains the empty text |
| Text.LexLeqTotal | src/app/dashboard/page.tsx:255-258 | any two texts are comparable |
| Text.LexLeqTransitive | src/app/dashboard/page.tsx:255-258 | the text order is transitive |
| Seqs.SortBySorted | src/app/api/users/route.ts:51-53 | sorting by a total preorder gives an ordered sequence |
| Seqs.InsertSorted | src/app/api/users/route.ts:51-53 | inserting into an ordered sequence keeps it ordered |
| Seqs.SortByIndifferent | src/app/dashboard/page.tsx:248-266 | a comparator that always answers 0 leaves the order as it was |
| Seqs.InsertTies | src/app/dashboard/page.tsx:248-266 | an inserted element comes before every element level with it |
| Seqs.SortByStable | src/app/dashboard/page.tsx:248-266 | the sort is stable: the elements level with any given one keep their relative order |
| Dashboard.Terms | src/app/dashboard/page.tsx:212 | one trimmed term per piece of the split |
| Dashboard.FilterProducts | src/app/dashboard/page.tsx:244-246 | exactly the products the per-field test keeps, never more often than stored |
| Dashboard.EmptyValueMatches | src/app/dashboard/page.tsx:200-241 | an empty value matches every product on every column outside the date branches |
| Dashboard.EmptyValueKeepsAll | src/app/dashboard/page.tsx:244-246 | an empty value keeps the whole list in order |
| Dashboard.PriceRange | src/app/dashboard/page.tsx:205-207 | on price, `a-b` keeps a product exactly when both bounds parse and the price lies between them, both included |
| Dashboard.QuantityRange | src/app/dashboard/page.tsx:208-210 | on quantity, `a-b` keeps a product exactly when both bounds parse as integers and the quantity lies between them |
| Dashboard.TwoTerms | src/app/dashboard/page.tsx:211-220 | on name, description or category, `a,b` keeps a product exactly when the trimmed `a` or `b` occurs in the column, ignoring case |
| Dashboard.OneTerm | src/app/dashboard/page.tsx:211-220 | a value without a comma is trimmed and then looked for, ignoring case |
| Dashboard.NameCaseIgnored | src/app/dashboard/page.tsx:211-220 | lowering the product's name does not change which name filters it passes |
| Dashboard.BeforeIsOrder | src/app/dashboard/page.tsx:248-266 | the comparator, in either direction, is a total preorder |
| Dashboard.SortProducts | src/app/dashboard/page.tsx:248-266 | a reordering of the rows, ordered by the column and direction, stable among rows level on that column; the boolean column leaves the order as it was |
| Dashboard.PageCount | src/app/dashboard/page.tsx:188 | the fewest pages of ten that hold all rows |
| Dashboard.PageOf | src/app/dashboard/page.tsx:269 | at most ten rows: the rows from position (page - 1) * 10 on, in order, as many as remain |
| Dashboard.PagesUpToPrefix | src/app/dashboard/page.tsx:269 | the first n pages together are the first 10 n rows |
| Dashboard.PagesCoverAll | src/app/dashboard/page.tsx:185-269 | the pages up to the page count show every row once, in order |
| Dashboard.PageEmptyIffPastEnd | src/app/dashboard/page.tsx:269 | a page is empty exactly when it lies past the page count of the rows shown |
| Dashboard.CountStatusStep | src/app/dashboard/page.tsx:82-87 | a tally counts the first user when it has the status, plus the tally of the rest |
| Dashboard.CountsAddUp | src/app/dashboard/page.tsx:82-87 | pending, active and disabled add up to all |
| Dashboard.TabUsers | src/app/dashboard/page.tsx:393-408 | exactly the users the active tab shows |
| Dashboard.TabsMatchCounts | src/app/dashboard/page.tsx:393-408 | each status tab lists as many users as its tally; the all tab lists every user in order; the product and order tabs list none |
| Dashboard.NothingShown | src/app/dashboard/page.tsx:404-407 | the product and order tabs show no users |
| Dashboard.ReplaceUser | src/app/dashboard/page.tsx:142-144 | same length; users with that id are replaced by the answer; the others stay in place |
| Dashboard.ReplaceOnlyMatch | src/app/dashboard/page.tsx:142-144 | every other user is still listed, the answer is listed when the id was, and without the id nothing changes |
| Dashboard.ReplaceIdempotent | src/app/dashboard/page.tsx:142-144 | applying the same answer twice is applying it once |
| Dashboard.SetOrderStatus | src/app/dashboard/page.tsx:753-759 | same length; orders with that id get the new status; the others stay in place |
| Dashboard.DashboardPage.constructor | src/app/dashboard/page.tsx:70-80 | the initial state: empty lists, pending tab, price ascending, name filter with an empty value, page 1, modal closed |
| Dashboard.DashboardPage.TotalPages | src/app/dashboard/page.tsx:188 | enough pages for all products, and no more: the last page starts before the end |
| Dashboard.DashboardPage.ShownProducts | src/app/dashboard/page.tsx:244-269 | the rows at positions (page - 1) * 10 on of the filtered, sorted list, as many as remain up to ten; each is stored, passes the filter, and the rows are in sort order |
| Dashboard.PageRowsMatch | src/app/dashboard/page.tsx:244-269 | every row of a page of the filtered, sorted list is stored and passes the filter |
| Dashboard.PageRowsOrdered | src/app/dashboard/page.tsx:262-269 | a page of a list in sort order is in sort order |
| Dashboard.DashboardPage.HandlePageChange | src/app/dashboard/page.tsx:190-194 | the page changes exactly when the request is between 1 and the page count, and nothing else changes |
| Dashboard.DashboardPage.ApplyUserUpdate | src/app/dashboard/page.tsx:138-150 | a user in the answer replaces the user with that id; no user or a failed request changes nothing |
| Dashboard.DashboardPage.HandleReject | src/app/dashboard/page.tsx:152-169 | the same replacement; an answered request closes the modal and clears the reason, and a failed one leaves both |
| Dashboard.DashboardPage.ChangeOrderStatus | src/app/dashboard/page.tsx:743-759 | a successful change sets only that order's status; a failed one changes nothing |

## Left out

- Prisma itself is not modelled. Transactions are left out, and so are the
  unique, foreign-key and default constraints of the schema, which is not
  part of this model. Where a handler dereferences a related row that may
  be missing, the model takes the 500 path the handler's catch gives.
- Database failures are left out: the catch-all 500 answers a handler gives
  when a query throws for reasons outside the data.
- Concurrency between requests is left out, and so are the request and
  response plumbing (JSON, form data, headers).
- Prisma's `contains` is modelled as a case-sensitive substring test. The
  database's collation is not modelled.
- Identifiers are numbers in the model. The source's ids are strings.
  Because of this, `toString` of an id prints digits, and the dashboard
  sorts ids as numbers, not by `localeCompare`.
- `localeCompare` is modelled by `Text.LexLeq`, a lexicographic order on
  character codes. Locale collation is not modelled.
- Dates are integer timestamps. Date columns reach the dashboard as ISO
  strings; sorting them as text agrees with sorting by time, so the
  dashboard compares timestamps.
- Dashboard.FieldMatches: the two `createdAt` branches are left out because
  they compare and search locale date formatting. The filter on `updatedAt`
  is left out too: it is a case-insensitive substring test on the ISO text
  of the timestamp, and the model's integer timestamps do not carry that
  text. The filter therefore requires a column outside these two.
- Dashboard.FieldText: the dashboard's `farmerId` column is not in the rows
  the catalog search returns, so it is not modelled.
- Floating point is left out. Prices are exact cents, and the parsed
  bounds are exact reals.
- Password hashing is two function parameters. Salts, cost factors and a
  failing hash call are left out, so the buyer registration's "Failed to
  hash password" 500 is not modelled. The buyer login's "Failed to
  validate credentials" 500 is modelled only for a missing password.
- BuyerAuth.Login: a comparison that throws for any reason other than a
  missing password is left out.
- Text.Lower: only the ASCII letters A to Z are lowered. JavaScript's
  `toLowerCase` also maps other letters (such as `É` to `é`); that Unicode
  case mapping is not modelled.
- Text.Trim: white space is space, tab, line feed and carriage return only.
  JavaScript's `trim` also strips vertical tab, form feed, no-break space,
  the byte-order mark and the other Unicode space separators; those are not
  stripped here.
- Text.ParseInt: decimal digits after an optional sign only. The `0x` hex
  prefix that `parseInt` accepts is not modelled, so `"0x1A"` gives 0 here
  rather than 26.
- Text.ParseFloat: an optional sign, digits and an optional fraction only.
  Exponents (`"1e3"` is 1 here, 1000 in JavaScript) and `Infinity` are not
  modelled.
- CartApi.AddToCart: a `buyerId` of `None` is an absent id, for which the
  cart lookup throws and the handler answers 500. An id sent as empty text,
  which the source looks up and answers 404 for, cannot arise because ids
  are numbers in the model.
- CartApi.AddToCart: a missing quantity is passed through as given. The
  quantity field is an `int` here, and the database's rejection of a
  missing one is not modelled.
- Joined payloads are reduced to ids. This covers the chats listing's buyer
  and farmer names and the orders listing's products and buyer. It also
  covers the delivered history's `include` of each order's items with
  their product rows: `OrderHistory.DeliveredHistory` returns the order
  rows alone.
- The dashboard's data loading, rendering, dropdowns, modal markup and
  error alerts are left out. The replies of the update endpoints are
  parameters of the state-update methods.
- The dashboard's sort works in place on a freshly filtered array. Nothing
  else shares that array, so it is modelled on values.
- `src/app/api/messages/route.ts` and `src/app/api/notifications/route.ts`
  are not part of this model. The first is a single insert behind a
  presence check, and the second repeats the farmer notifications query.
