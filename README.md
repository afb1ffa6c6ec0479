# mercadonline shop backend, modelled in Dafny

This models the server side of the mercadonline shop. That is the Symfony controllers that read and write products, categories, cart lines, orders, order items, payments and users, plus the console command that creates a user.

The store is one class, `Backend.Shop`:
- It holds one map from id to row per table and one id counter. The counter stands for the database's AUTO_INCREMENT.
- It has one method per handler. Each returns the HTTP status the handler answers with.
- Every rejecting path promises `unchanged(this)`.
- Every handler keeps the store's integrity constraints, `Backend.Consistent`:
  - ids are below the counter;
  - references resolve;
  - each cart line and each order item holds at least one unit;
  - a user has one cart line per product;
  - e-mail addresses are unique.
- Non-negative stock is not among those constraints, because an administrator may store any stock value. Order creation and cancellation are proved to keep stock non-negative where it was.

The arithmetic and string rules the handlers share are pure modules:
- `Pagination`: page, limit, offset and page count.
- `Card`: whitespace stripping, the sixteen-digit check and the last four digits.
- `Status`: upper-casing and the status sets.
- `Catalog`: the listing's sort order, its choice of query and the popular-products answer.
- `Inventory`: the stock passes of order creation and cancellation, as functions over the product table.
- `Tables`: query results arrive in an unknown order, so `Enumerate` returns the selected ids, each once, in any order.

The shop's methods are proved against those functions:
- Order creation yields `Inventory.Reserve`, `Inventory.MakeItems` and `Inventory.LinesTotal` of the caller's cart lines.
- Cancellation yields `Inventory.Restock` of the order's items.
- The lemmas about those functions state what the workflow promises:
  - all-or-nothing creation;
  - stock and sales moving by exactly the ordered units;
  - stock never overdrawn;
  - what a cancellation gives back.

Conventions:
- Money is integer cents, because the columns are NUMERIC(10, 2).
- Statuses and roles are strings. This keeps the upper-case/lower-case mismatch between the status update and the rest of the code visible.
- Foreign calls are parameters:
  - the e-mail filter, as `isEmail`;
  - the password hasher, as `hash`;
  - the unique id suffix of a transaction id, as `uniq`.
- The logged-in user and the administrator flag are parameters too.

## Model

| member | source | states |
|---|---|---|
| Records.AtLeastOne | backend/src/Controller/CartController.php:74 | the clamped quantity is at least 1, and it is the request itself unless the request was below 1 |
| Pagination.CapLimit | backend/src/Controller/ProductController.php:297 | the limit is at most 50. Without a parameter it is the default; otherwise it is the request, or 50 when the request exceeds 50. There is no lower clamp |
| Pagination.Paginate | backend/src/Controller/OrderController.php:47-49 | page >= 1 (the request, or 1 when the request is absent or below 1), limit <= 50 (default 10), offset = (page - 1) * limit |
| Pagination.Pages | backend/src/Controller/OrderController.php:88 | for limit > 0, the page count is the ceiling of total / limit. A limit of 0 is a division by zero (`None`). A negative limit gives a count <= 0 |
| Pagination.ZeroLimitFails | backend/src/Controller/ProductController.php:36 | the request `?limit=0` passes the clamp, and the page count then fails |
| Pagination.PaginateIntended | backend/src/Controller/ProductController.php:35-37 | with a lower clamp of 1, the limit lies in 1..50 and the offset is non-negative. It agrees with the listing whenever the request is already in 1..50 |
| Pagination.IntendedPagesDefined | backend/src/Controller/ProductController.php:106 | with the intended clamp, every listing has a page count, and it is the ceiling |
| Card.StripSpaces | backend/src/Controller/PaymentController.php:62 | the result is no longer than the input and holds no whitespace |
| Card.StripSpacesIdempotent | backend/src/Controller/PaymentController.php:62 | stripping twice is stripping once |
| Card.SpaceAnywhereIsIgnored | backend/src/Controller/PaymentController.php:62 | a whitespace character anywhere in the number changes nothing |
| Card.AcceptedLength | backend/src/Controller/PaymentController.php:62-63 | a submitted number is accepted only if it has at least sixteen characters; `Card.AcceptedIff` characterises acceptance in full |
| Card.AcceptedIff | backend/src/Controller/PaymentController.php:62-67 | a card is accepted if and only if it holds only digits and whitespace, and exactly sixteen digits |
| Card.LastFour | backend/src/Controller/PaymentController.php:76 | four characters, which complete the number as its suffix |
| Card.KeptDigits | backend/src/Controller/PaymentController.php:62-76 | for an accepted card, the kept part is four digits: the characters 12 to 15 of the stripped number |
| Status.ToUpper | backend/src/Controller/OrderController.php:331 | same length, no lower-case letter left, and each character is kept or is its upper-case letter |
| Status.UpperIdempotent | backend/src/Controller/OrderController.php:331 | upper-casing twice is upper-casing once |
| Status.AdminAccepts | backend/src/Controller/OrderController.php:331-334 | every listed upper-case status is accepted as written, and an accepted input has 4 to 10 characters |
| Status.AdminAcceptsAnyCase | backend/src/Controller/OrderController.php:331-338 | the status update accepts a spelling exactly when it accepts its upper-cased form |
| Status.PaidStoredUpperCase | backend/src/Controller/OrderController.php:331-340 | "paid" and "Paid" are accepted and stored as "PAID" |
| Status.UpperCasedNeverPendingOrPaid | backend/src/Controller/OrderController.php:340 | a stored upper-cased status is never "pending" or "paid" and never counts as sold |
| Status.IntendedStoredStatus | backend/src/Controller/OrderController.php:331-340 | for an accepted input, the lower-case status with the same upper-case form |
| Status.IntendedStatusStaysCancellable | backend/src/Controller/OrderController.php:258 | under the intended normalisation, choosing PENDING or PAID leaves the order cancellable, which the stored upper-case value does not |
| Catalog.SortFor | backend/src/Controller/ProductController.php:47-52 | sales descending if and only if the sort parameter is exactly "popularity"; otherwise name ascending |
| Catalog.IntArgument | backend/src/Repository/ProductRepository.php:22 | a query-string value given to an `?int` parameter reads as an integer only from a non-empty string, and only within the 64-bit range; the numeral rule itself is stated by the two lemmas below |
| Catalog.IntArgumentOfNumeral | backend/src/Repository/ProductRepository.php:22 | whitespace, an optional "+" or "-", a non-empty run of digits and whitespace read as the signed value of the digits when it fits in 64 bits, and as a TypeError otherwise |
| Catalog.NumeralOfIntArgument | backend/src/Repository/ProductRepository.php:22 | only such a numeral reads as an integer: a string that reads splits into whitespace, sign, digits and whitespace, and its value is the signed value of the digits |
| Catalog.DecimalRoundTrip | backend/src/Repository/ProductRepository.php:22 | an id written in decimal is read back as that id when it fits in 64 bits; a larger one is a TypeError |
| Catalog.ChooseQuery | backend/src/Controller/ProductController.php:40-80 | a malformed date answers 400 first; then a truthy search term wins, then a date bound, then the category criteria. The search hands the raw category to the repository's `?int`: an integer filters when non-zero, zero or no category filters nothing, any other string is a TypeError (500). The criteria filter by the category string whenever it is truthy |
| Catalog.SearchCategoryById | backend/src/Repository/ProductRepository.php:22-36 | with a search term, a decimal id other than 0 filters by that id; one beyond the 64-bit range fails with a TypeError |
| Catalog.SearchCategoryMalformed | backend/src/Repository/ProductRepository.php:22-36 | with a search term, "" and "abc" fail with a TypeError; "00" is truthy but reads as 0 and filters nothing |
| Catalog.PopularityOnlyWithoutSearchOrDates | backend/src/Controller/ProductController.php:47-80 | a popularity sort takes effect exactly when there is no search term and no date bound |
| Catalog.PopularProducts | backend/src/Controller/ProductController.php:293-345 | 400 if and only if a date is malformed, 200 otherwise. The limit is capped at 50 (default 20). A failed query answers an empty list with 200 |
| Inventory.Reserve | backend/src/Controller/OrderController.php:176-201 | the stock pass keeps the product ids |
| Inventory.ReserveEffect | backend/src/Controller/OrderController.php:187-201 | after a successful pass, each product's stock fell, and its sales rose, by exactly the units ordered of it |
| Inventory.ReserveConserves | backend/src/Controller/OrderController.php:187-201 | stock plus sales is conserved by order creation |
| Inventory.ReservePrefixFails | backend/src/Controller/OrderController.php:181-186 | one line short of stock aborts the whole pass |
| Inventory.ReserveSucceedsIff | backend/src/Controller/OrderController.php:181-186 | for one line per product, the pass succeeds if and only if every line is within its product's stock |
| Inventory.ReserveNeverOverdraws | backend/src/Controller/OrderController.php:181-190 | no ordered product ends with negative stock, and non-negative stock stays so |
| Inventory.ReserveOutcome | backend/src/Controller/OrderController.php:176-201 | a successful pass, product by product, on its result |
| Inventory.MakeItemsShape | backend/src/Controller/OrderController.php:192-199 | one item per cart line, in order, each with the new order's id and the line's product and quantity |
| Inventory.LinesTotalNonNegative | backend/src/Controller/OrderController.php:192-205 | with non-negative quantities and prices, the order total is non-negative |
| Inventory.OrderTotalIsItemsTotal | backend/src/Controller/OrderController.php:192-205 | the order total is the sum over its items of price times quantity |
| Inventory.MakeItemsQty | backend/src/Controller/OrderController.php:192-199 | the items hold, product by product, the units the cart lines asked for |
| Inventory.Restock | backend/src/Controller/OrderController.php:273-292 | the cancellation pass keeps the product ids |
| Inventory.Restore | backend/src/Controller/OrderController.php:282-291 | one item's cancellation changes only stock and sales: stock gains the units; sales stay unless the tested status counts as sold, and never rise nor go negative |
| Inventory.RestockEffect | backend/src/Controller/OrderController.php:273-292 | when the tested status is not counted as sold, each product gets its units back and its sales stay |
| Inventory.RestockCountedEffect | backend/src/Controller/OrderController.php:282-291 | when the tested status is counted as sold, the units also come out of sales, floored at zero: non-negative sales end as the old sales less the units, or 0 |
| Inventory.CancelRestoresStockKeepsSales | backend/src/Controller/OrderController.php:269-292 | creating and then cancelling an order restores every stock, but keeps the sales it added |
| Inventory.ItemQtyPermutation | backend/src/Controller/OrderController.php:273-292 | the units of a product in an order's items do not depend on the order the items come in |
| Inventory.CancelPermutedKeepsSales | backend/src/Controller/OrderController.php:269-292 | creating and then cancelling an order, with its items in any order, restores every stock and keeps the sales it added |
| Inventory.CancelOfPaidOrderRestoresSales | backend/src/Controller/OrderController.php:282-291 | when the order's status before cancelling is tested (here "paid"), create then cancel restores every product exactly |
| Backend.Patched | backend/src/Controller/ProductController.php:211-240 | each field present in the payload is replaced; the others, and sales, are kept |
| Backend.EmptyPatchKeeps | backend/src/Controller/ProductController.php:211-240 | a payload with no fields leaves the product as it was |
| Backend.PatchIdempotent | backend/src/Controller/ProductController.php:211-240 | sending the same payload twice is sending it once |
| Backend.OrderCommitKeepsConsistent | backend/src/Controller/OrderController.php:161-216 | committing an order keeps the integrity constraints and non-negative stock |
| Backend.CancelKeepsConsistent | backend/src/Controller/OrderController.php:266-296 | a cancellation keeps the integrity constraints; each product gets back the units of the order's items and keeps its sales |
| Tables.RowsOfRange | backend/src/Controller/OrderController.php:273 | the rows read back, in any order, from the ids an insertion used are the inserted rows, rearranged |
| Backend.PlacedOrderItems | backend/src/Controller/OrderController.php:192-199 | the items stored under a new order, read back in any order, are the items made from its cart lines, rearranged |
| Backend.PlacedThenCancelled | backend/src/Controller/OrderController.php:140-316 | on the store, an order placed and then cancelled as written, with its items read back in any order, gives every product its stock back and keeps the sales the order added |
| Backend.Shop.CallerLinesWithinStock | backend/src/Controller/OrderController.php:176-186 | the caller's cart passes the stock check if and only if each of the caller's lines is within its product's stock |
| Backend.Shop.ListCartItems | backend/src/Controller/CartController.php:30-59 | every line of the caller, once each; the total is the sum of price times quantity over them |
| Backend.Shop.FindLine | backend/src/Controller/CartController.php:93-96 | the caller's line for the product when there is one; `None` exactly when there is none |
| Backend.Shop.AddToCart | backend/src/Controller/CartController.php:62-141 | 400 for a missing field; 404 if and only if both fields are given and the product is unknown; for a known product, 400 if and only if the clamped quantity, alone or added to the caller's existing line, exceeds the stock. An existing line grows by the clamped quantity; otherwise one new line is created. Success if and only if stock covers it |
| Backend.Shop.UpdateCartItem | backend/src/Controller/CartController.php:145-203 | 404, 403 for a non-owner (no administrator bypass), 400 for a missing quantity or over stock; otherwise only that line takes the clamped quantity |
| Backend.Shop.RemoveFromCart | backend/src/Controller/CartController.php:207-235 | 404, 403; otherwise exactly that line is removed |
| Backend.Shop.ClearCart | backend/src/Controller/CartController.php:239-257 | all and only the caller's lines are removed |
| Backend.Shop.GetCartCount | backend/src/Controller/CartController.php:261-267 | the number of the caller's lines, not of units |
| Backend.Shop.ListOrders | backend/src/Controller/OrderController.php:44-91 | the page window, the number of the caller's orders matching a truthy status, and the page count. There is no count for limit 0 |
| Backend.Shop.ShowOrder | backend/src/Controller/OrderController.php:94-137 | 404, 403 unless owner or administrator; otherwise all of the order's items |
| Backend.Shop.StockPass | backend/src/Controller/OrderController.php:176-212 | the loop over the cart succeeds if and only if `Reserve` does; it then yields `Reserve`'s stock, the items, the total and the cart without the lines |
| Backend.Shop.CommitOrder | backend/src/Controller/OrderController.php:202-216 | the order is stored pending with the total; items, stock and cart are as the pass left them; constraints are kept |
| Backend.Shop.CreateOrder | backend/src/Controller/OrderController.php:140-236 | 400 without an address, with an empty cart, or when a line is over stock, and then nothing changes. 201 if and only if none of these. One item per cart line, the order pending with the total, the caller's cart emptied, non-negative stock kept |
| Backend.Shop.RestockPass | backend/src/Controller/OrderController.php:273-292 | the loop over the order's items yields `Restock` with the status it tests |
| Backend.Shop.CancelOrder | backend/src/Controller/OrderController.php:240-316 | 404; 403 unless owner or administrator; 400 unless the status is exactly "pending" or "paid". Otherwise the status becomes "cancelled", each product gets back the units of the order's items, and sales are unchanged |
| Backend.Shop.UpdateOrderStatus | backend/src/Controller/OrderController.php:320-358 | 400 for a missing status, or one that is not a known status once upper-cased; otherwise the upper-cased input is stored, and nothing else changes |
| Backend.Shop.DeleteOrder | backend/src/Controller/OrderController.php:362-382 | the order and all its items are removed, with stock and sales untouched; 500 with nothing removed while a payment refers to it |
| Backend.Shop.ProcessPayment | backend/src/Controller/PaymentController.php:28-107 | checks, in order: 404; 403; 400 unless "pending"; 400 for a missing field; 400 for a rejected card. Success stores one payment (amount = order total, last four digits, "completed", "SIM_" id) and marks the order "paid" |
| Backend.Shop.CreateProduct | backend/src/Controller/ProductController.php:140-194 | 400 without name, price, stock or category, or for an unknown category; otherwise exactly one new product with no sales |
| Backend.Shop.UpdateProduct | backend/src/Controller/ProductController.php:199-263 | 404; 400 with nothing written for an unknown category; otherwise only that product changes, to `Patched` |
| Backend.Shop.DeleteProduct | backend/src/Controller/ProductController.php:268-289 | 404; otherwise exactly that product is removed, or 500 with nothing removed while a cart line or item refers to it |
| Backend.Shop.ListCategories | backend/src/Controller/CategoryController.php:24-41 | every category once, each with the number of its products |
| Backend.Shop.ShowCategory | backend/src/Controller/CategoryController.php:44-62 | 404, or the category's product count |
| Backend.Shop.CreateCategory | backend/src/Controller/CategoryController.php:66-99 | 400 without a name; otherwise one new category, description as given or null. The reported 0 is its true product count |
| Backend.Shop.UpdateCategory | backend/src/Controller/CategoryController.php:103-140 | 404; otherwise only the name and description present are replaced, and the count is reported |
| Backend.Shop.DeleteCategory | backend/src/Controller/CategoryController.php:144-173 | 404; 400 with the category kept while it has products; otherwise exactly that category is removed |
| Backend.Shop.Register | backend/src/Controller/UserController.php:26-97 | checks, in order: 400 for a missing field; 400 for a malformed e-mail; 409 for a registered e-mail. Otherwise one new user with the plain user role, the hashed password, and address and phone as given |
| Backend.Shop.InsertUser | backend/src/Controller/UserController.php:79-80 | the user is stored under the next id, which was free, and the counter moves on; constraints are kept |
| Backend.Shop.Login | backend/src/Controller/UserController.php:100-104 | 501, nothing changed |
| Backend.Shop.Profile | backend/src/Controller/UserController.php:107-111 | 501, nothing changed |
| Backend.Shop.UpdateProfile | backend/src/Controller/UserController.php:114-118 | 501, nothing changed |
| Backend.Shop.ChangeUserRole | backend/src/Controller/AdminController.php:72-116 | checks, in order: 404; 400 for the caller's own account; 400 unless the role is exactly one of the two roles. Otherwise only that user's role changes |
| Backend.Shop.DeleteUser | backend/src/Controller/AdminController.php:119-149 | 404; 400 for the caller's own account; otherwise exactly that user is removed, or 500 with nothing removed while an order or cart line refers to the user |
| Backend.Shop.CreateUserCommand | backend/src/Command/CreateUserCommand.php:38-81 | the role defaults to the user role. Failure for another role, checked first, or for an e-mail in use; otherwise exactly one new user and success |

## Left out

- HTTP and JSON plumbing, route and access attributes, and parameter conversion are left out. The caller and the administrator flag are parameters. Handlers that take an `Order` entity (status update, delete) require the order to exist, because the framework answers 404 before they run.
- Handlers whose response is only a serialisation of rows are not modelled, because they change nothing and state nothing beyond what the table holds: showing one product, the payment history, the administrator's user listing, showing one user, and the user statistics.
- The listing queries with their sort, filter and date bounds run in the database and are not modelled. This covers `findBy` with order and window, `findByFilters`, `findByDateRange` and `findMostPopularProducts`. The model covers the parameters the controllers derive: the window, the sort order, the choice of query, and the count of the caller's orders. The page count for a negative limit (`Pagination.Pages`) is only the arithmetic of the ceiling: in the program, a negative limit first reaches the query as its LIMIT and offset, and what the database layer does with it is not modelled.
- The administrator's order listing is modelled only in its page arithmetic (`Pagination.Paginate`, `Pagination.Pages`). Its filters go to a repository method that is not part of this model.
- Creation and update timestamps are not modelled, nor is any date handling.
- Money is integer cents. PHP's float arithmetic on prices and totals is not modelled.
- Transaction ids take the unique suffix as a parameter, because `uniqid` is a foreign call.
- The e-mail filter and the password hasher are parameters. They are not modelled.
- Comparison of e-mail addresses is exact string equality. The database collation is not modelled.
- Backend.Shop.ListOrders: the status filter counts orders whose status equals the parameter exactly. A case-insensitive database collation would also count other spellings, such as "PAID" for `?status=paid`; the collation is not modelled.
- Catalog.ChooseQuery: only integer numerals are modelled as read by the `?int` parameter. A numeral with a decimal point or exponent and a leading-numeric string such as "12abc" are modelled as a TypeError. PHP instead accepts some of them, with a deprecation or a warning. An integer numeral beyond the 64-bit range is a TypeError in both.
- `in_array` is loose in the role check, so a JSON `true` passes it. JSON values are modelled as strings, so that case is not represented.
- Foreign key violations at flush are modelled as 500 with nothing changed. A flush fails when it deletes a product, a user or an order that other rows still refer to. The payment-to-order key is in the schema migration. The product and user keys are assumed to be the default non-cascading ones, because the entity mappings are not part of this model.
- A new product starts with no sales. The Product entity's default is not part of this model.
- Every other exception caught by a handler's `catch` (500) is not modelled.
- Concurrent requests are not modelled, because the model is sequential.
- Backend.Shop.CreateOrder: its contract ties the result to `Inventory.Reserve`, `Inventory.MakeItems` and `Inventory.LinesTotal`. It does not restate the per-product stock and sales change, which `Inventory.ReserveOutcome` states about that same result.
- Upload handling and the frontend are not part of this model.

## Findings

| source | as written | input that shows it | evidently intended | confidence | as-written member | corrected member |
|---|---|---|---|---|---|---|
| backend/src/Controller/OrderController.php:269-291 | the status is set to "cancelled" before the loop tests whether it counts as sold, so sales are never lowered | create an order for one unit, pay it, cancel it: stock is back but sales stay one higher | test the status the order had before cancelling, so a paid order's sales go back too | not executed | Inventory.CancelRestoresStockKeepsSales | Inventory.CancelOfPaidOrderRestoresSales |
| backend/src/Controller/OrderController.php:331-340 | the status update stores its input upper-cased, while payment and cancellation compare with lower-case "pending" and "paid" | set an order's status to "pending" through the update: it is stored as "PENDING" and can then be neither paid nor cancelled | store the lower-case status name | not executed | Status.UpperCasedNeverPendingOrPaid | Status.IntendedStatusStaysCancellable |
| backend/src/Controller/OrderController.php:48 | the limit is clamped from above only, so the page count divides by it | `?limit=0` on the order or product listing: `ceil($total / 0)` raises a division by zero | clamp the limit to at least 1 as well | not executed | Pagination.ZeroLimitFails | Pagination.IntendedPagesDefined |

The shop's handlers follow the code as written, because the store must hold what the code writes.

The corrected behaviours are defined beside them:
- The cancellation pass `Inventory.Restock` takes the tested status as a parameter, and the corrected pass is `Restock` with the order's previous status.
- The intended status normalisation is `Status.IntendedStoredStatus`.
- The intended clamp is `Pagination.PaginateIntended`.
