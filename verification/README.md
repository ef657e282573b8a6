# Orders and inventory of the shop back end, in Dafny

This project models the order engine of a small Django shop. A caller places
an order for products of a catalogue, and placing an order takes the ordered
units out of stock. A caller changes an order's status or deletes the order;
deleting it puts its units back into stock unless it was already shipped or
delivered. The order views enforce no permission of their own. The list view
sets `permission_class` (orders/views.py:24), a name the framework never
reads. The `@permission_classes` decorators on the detail view's methods
(orders/views.py:120, 141, 166) have no effect on the methods of a
class-based view. So every view admits whatever caller the project-wide
default policy admits, and the engine's methods take no caller to check. A
periodic task deletes the cancelled orders.

The model also covers the pure parts around that engine:
- the product, order and user records, with their choices, defaults and
  renderings;
- the validators of the serializers;
- the two permission classes;
- the password check, registration and token claims of the account
  serializers.

The state of the engine is the class `OrdersViews.OrderEngine`. Its fields
are the product table, the order table (each order holds its lines, one per
product), the next order key, and a count of the remote calls queued.
- Each view method is proved against a specification function on the value
  `OrdersSpec.Db`: `ensures (r, State()) == XSpec(old(State()), ...)`.
- The properties are stated about those functions as lemmas in
  `OrdersInventory`: no oversell, stock conservation, consistency of the
  tables, totals, and delete undoing a placement.
- Money is integer cents. Product names are compared by `Text.Fold`
  (upper-casing), which models the case-insensitive `iexact` lookup.

The create view follows the code rather than its documented intent.
- The order row is created inside `transaction.atomic()` before the cart is
  walked. The two error answers, short stock and "no product found", leave
  the block with a `return`, so the block commits: the order row and the
  lines reserved before the short entry stay.
- Only an exception rolls back. In the model, `Aborted` stands for these:
  a name matching several products (`MultipleObjectsReturned`), or a second
  line for the same product (the unique constraint on order and product).
- The documented intent is that an error answer leaves nothing behind. This
  is modelled separately, as `OrdersSpec.AllOrNothingPlaceSpec` and
  `OrderEngine.PlaceOrderAllOrNothing` (see Findings).
- A line's `price` is written as unit price times quantity
  (orders/views.py:75), and `calculate_total` multiplies it by the quantity
  again. The view writing the unit price instead is modelled separately, as
  `OrdersSpec.UnitPricedPlaceSpec` (see Findings).

## Model

| member | source | states |
|---|---|---|
| Wrappers.Get | accounts/serializers.py:38-39 | `dict.get`: a value exactly when the key is present, and then the stored one |
| Text.Fold | orders/views.py:61 | case folding keeps the length and folds every character on its own |
| Text.FoldIdempotent | orders/views.py:61 | folding twice is folding once |
| Text.SameFoldedTransitive | orders/views.py:61 | case-insensitive equality is transitive |
| Text.TrimStart | orders/serializers.py:11 | drops exactly the leading whitespace: the result is a suffix, what was cut is whitespace, and the result starts with a non-space |
| Text.TrimEnd | orders/serializers.py:11 | drops exactly the trailing whitespace, symmetrically |
| Text.Strip | orders/serializers.py:11 | the trimmed name is empty exactly when the input is all whitespace, and otherwise starts and ends with a non-space |
| Text.StripCutsSpace | orders/serializers.py:11 | the input is whitespace, then the trimmed name, then whitespace: only surrounding whitespace is cut |
| Text.StripUnpadded | orders/serializers.py:11 | a name without surrounding whitespace is left as it is |
| Text.DecimalString | products/models.py:78 | the rendering of a count is a non-empty digit string without a leading zero |
| Text.DecimalStringRoundTrip | products/models.py:78 | reading back the digits of a rendered count gives the count |
| Text.CentsString | products/models.py:39-44 | a price renders with two decimal places after a point |
| Text.CentsStringRoundTrip | products/models.py:39-44 | the integer part and the two decimals read back to the price in cents |
| ProductsModels.ParseCategory | products/models.py:20-26 | a code that parses is the code of the category it gives |
| ProductsModels.CategoryRoundTrip | products/models.py:20-26 | every category's code parses back to that category |
| ProductsModels.IsInStock | products/models.py:80-82 | in stock exactly when the stock is at least 1 |
| ProductsModels.StockText | products/models.py:78 | stock 100 renders as `100` |
| ProductsModels.PriceText | products/models.py:78 | price 5000.99 renders as `5000.99` |
| ProductsModels.LabelReadsBack | products/models.py:77-78 | the label is the fixed template around the name, a digit string reading back as the stock, and a price text whose units and two decimals read back as the price in cents |
| ProductsModels.PhoneLabel | products/models.py:77-78 | the label of the phone is `Название: Phone, Количество: 100, Цена: 5000.99.` |
| ProductsSerializers.ValidatePrice | products/serializers.py:17-21 | a price is accepted exactly when positive, and then unchanged |
| ProductsSerializers.ValidateStock | products/serializers.py:23-27 | a stock is accepted exactly when positive, and then unchanged |
| ProductsSerializers.Refused | products/models.py:28-55 | a field is refused exactly when its check fails: the trimmed name blank, with NUL or over 255 characters; the price outside 0.01 to 99999999.99 or not positive; the stock not positive; the category not one of the five codes |
| ProductsSerializers.ValidateProduct | products/serializers.py:5-27 | refused exactly when some field is, with exactly the refused fields reported; an accepted product has the trimmed name and the given price, stock and category, meets the model's field constraints and is in stock |
| OrdersModels.ParseStatus | orders/models.py:21-31 | a code that parses is the code of the status it gives |
| OrdersModels.StatusRoundTrip | orders/models.py:21-27 | every status's code parses back to it |
| OrdersModels.LinesSumRemove | orders/models.py:47-48 | the aggregate sum may take any line out first |
| OrdersModels.LinesSumSameTerms | orders/models.py:47-48 | sums whose terms agree line by line are equal |
| OrdersModels.LinesSumNonNegative | orders/models.py:47-48 | a sum of non-negative terms is non-negative |
| OrdersModels.CalculateTotal | orders/models.py:42-49 | the total is never negative, and is 0 for an order without lines |
| OrdersModels.TotalPrice | orders/models.py:51-53 | `total_price` is `calculate_total` |
| OrdersModels.TotalAddLine | orders/models.py:47-49 | a new line adds its price times its quantity to the total |
| OrdersModels.SingleLineTotal | orders/models.py:51-53 | one line at 5000.99 with quantity 2 totals 10001.98 |
| OrdersModels.PricedLine | orders/views.py:71-76 | the line the create view writes keeps the quantity and holds unit price times quantity, so its price times its quantity is the unit price times the quantity squared |
| OrdersModels.UnitLine | orders/models.py:63-71 | a line at the unit price: its price times its quantity is unit price times quantity |
| OrdersModels.OrderLabel | orders/models.py:39-40 | the label starts with `Order #`, ends with ` by ` and the owner's rendering, and the digits in between read back to the key |
| OrdersSerializers.ValidateQuantity | orders/serializers.py:12-18 | a quantity is accepted exactly when at least 1, and then unchanged |
| OrdersSerializers.ValidateCart | orders/serializers.py:9-18 | a cart is valid exactly when every entry's trimmed name is non-blank without NUL and its quantity is at least 1; the valid cart keeps length and quantities and strips each name |
| OrdersSerializers.ValidateTotalPrice | orders/serializers.py:45-49 | a total is accepted exactly when at least 1000, and then unchanged |
| OrdersSpec.Matches | orders/views.py:61 | the products matched are exactly those whose name equals the requested one ignoring case |
| OrdersSpec.Resolve | orders/views.py:61 | `get` finds nothing exactly when no name matches, raises exactly when two or more match, and otherwise gives the only match |
| OrdersSpec.ResolveIgnoresStock | orders/views.py:61 | changing stock does not change which product a name resolves to |
| OrdersSpec.WalkCountsLines | orders/views.py:59-85 | a walk that does not raise keeps the products, only adds lines, adds one line per counted entry and at most one per entry; short stock needs an entry |
| OrdersSpec.AtomicCreateSpec | orders/views.py:50-93 | never invalid data; the tables stay as they were exactly when it raises; otherwise one pending order of the user is added under the next key and the key advances; created exactly with the new key and some line, the empty answer with none |
| OrdersSpec.PlaceOrderSpec | orders/views.py:46-98 | invalid data exactly when the cart is invalid; invalid data and raises change nothing; otherwise the new order is added under the next key; created with the new key and some line |
| OrdersSpec.AllOrNothingPlaceSpec | orders/views.py:46-98 | the same answer as the create view; nothing changes unless an order is created, and a created order has a line |
| OrdersSpec.UnitPriced | orders/models.py:63-71 | repricing keeps the products and quantities of the lines and gives each its product's unit price |
| OrdersSpec.Restock | orders/views.py:175-179 | every product gets back what the lines hold of it and nothing else about it changes; no lines change nothing |
| OrdersSpec.KeepCreated | orders/views.py:50-90 | the answer is kept, and the tables are those after the request only when an order was created |
| OrdersSpec.UpdateStatusSpec | orders/views.py:142-157 | missing order → not found; invalid exactly when a status was sent that is not one of the codes; same status → refused unchanged; otherwise only that order's status changes, and one remote call is queued exactly for `shipped` |
| OrdersSpec.DeleteOrderSpec | orders/views.py:167-181 | missing → not found; shipped or delivered → refused unchanged; otherwise the order goes and every product gets back what the order held of it |
| OrdersSpec.DeleteProduct | orders/models.py:69 | deleting a product removes it and every order line that refers to it, and keeps every order |
| OrdersViews.OrderEngine.GetObject | orders/views.py:105-111 | the order under the key, or nothing (404) exactly when there is none |
| OrdersViews.OrderEngine.ReserveEntry | orders/views.py:60-85 | one loop pass does what `Step` says: reserve the entry into the order and take its quantity out of stock, skip it, or stop without writing |
| OrdersViews.OrderEngine.ReserveLines | orders/views.py:59-85 | the loop's outcome is `Walk` of the cart from an empty order, and the tables hold the walk's catalogue and lines unless it raised |
| OrdersViews.OrderEngine.AtomicCreate | orders/views.py:50-93 | the atomic block creates the order row, walks the cart, and commits or rolls back as `AtomicCreateSpec` says |
| OrdersViews.OrderEngine.PlaceOrder | orders/views.py:46-98 | the create view: answer and new tables are `PlaceOrderSpec` of the tables before, and the tables stay consistent |
| OrdersViews.OrderEngine.PlaceOrderAllOrNothing | orders/views.py:50-90 | the create view with its error answers rolled back: answer and new tables are `AllOrNothingPlaceSpec`, and the tables stay consistent |
| OrdersViews.OrderEngine.UpdateStatus | orders/views.py:142-157 | the update view: answer and new tables are `UpdateStatusSpec` of the tables before, and the tables stay consistent |
| OrdersViews.OrderEngine.DeleteOrder | orders/views.py:167-181 | the delete view: answer and new tables are `DeleteOrderSpec` of the tables before, and the tables stay consistent |
| OrdersViews.OrderEngine.ReturnStock | orders/views.py:175-179 | the loop over the order's items leaves the catalogue `Restock` says and touches nothing else |
| OrdersInventory.ReservedTransitive | orders/views.py:59-85 | reserving in two stretches is reserving: conservation and line prices carry over |
| OrdersInventory.StepReserves | orders/views.py:60-85 | a pass skips exactly when no name matches; otherwise it takes exactly the requested quantity of the single matching product, which had that much, and writes its line at unit price times quantity |
| OrdersInventory.WalkReserves | orders/views.py:59-85 | a walk that does not raise only reserves: stock plus units held is conserved per product, and each new line has quantity at least 1 and the unit price times it |
| OrdersInventory.WalkStopsAtShortEntry | orders/views.py:64-69 | short stock stops at an entry k: the entries before it finish with the reported progress, and entry k is short on the named product |
| OrdersInventory.ShortNamesTheProduct | orders/views.py:65-69 | the short-stock answer names the product the entry matched, which had fewer units than asked |
| OrdersInventory.Known | orders/views.py:83-85 | the entries kept are exactly those whose name matches some product |
| OrdersInventory.KnownValidated | orders/views.py:83-85 | dropping unknown entries keeps a cart valid |
| OrdersInventory.KnownIgnoresStock | orders/views.py:83-85 | which entries are known does not depend on stock |
| OrdersInventory.WalkIgnoresUnknown | orders/views.py:83-85 | skipping unknown names: the walk over the cart equals the walk over its known entries |
| OrdersInventory.CommittedIsPlaced | orders/views.py:50-91 | committing a reserved walk adds one pending order of the user under the next key and changes nothing else |
| OrdersInventory.NothingReserved | orders/views.py:86-90 | a walk that reserved no line left the catalogue as it was |
| OrdersInventory.PlaceOrderOutcome | orders/views.py:46-98 | invalid data exactly for an invalid cart; invalid data and raises change nothing; every other answer commits the new order; created exactly with a line; the empty answer leaves stock as it was |
| OrdersInventory.AllOrNothingOutcome | orders/views.py:50-90 | with error answers rolled back, a request creates an order with at least one line or changes nothing, and the tables stay consistent |
| OrdersInventory.PlacedNoOversell | orders/views.py:65-80 | every line of a placed order asks at most the stock there was; the stock left is that minus the quantity; the line price is unit price times quantity |
| OrdersInventory.PlacedKeepsValid | orders/views.py:50-91 | placing keeps the tables consistent |
| OrdersInventory.PricedLinesTotal | orders/models.py:47-49 | lines priced at unit times quantity total the sum of unit times quantity squared |
| OrdersInventory.PlacedTotalSquaresQuantity | orders/models.py:47-48 | the total of a placed order is the sum of unit price times quantity squared |
| OrdersInventory.UnitPricedTotal | orders/models.py:47-49 | lines at unit prices total the sum of unit price times quantity |
| OrdersInventory.UnitPricedPrices | orders/views.py:71-76 | every line at unit prices holds its product's unit price |
| OrdersInventory.CommittedValid | orders/views.py:50-91 | committing a walk that kept the products and wrote lines only for products keeps the tables consistent |
| OrdersInventory.UnitPricedCommitted | orders/views.py:71-91 | committing with unit prices is the as-written commit with the new order repriced; it is consistent, each line holds the unit price, and the order totals the sum of unit price times quantity |
| OrdersInventory.UnitPricedPlaceOutcome | orders/views.py:46-98 | the create view writing unit prices gives the same answers; it changes nothing on invalid data or a raise, and otherwise commits the as-written tables with the new order repriced, consistent, totalling the sum of unit price times quantity |
| OrdersInventory.RestockUndoesReserve | orders/views.py:175-179 | putting back what reserved lines hold restores the catalogue from before the reservation |
| OrdersInventory.DeleteUndoesPlace | orders/views.py:173-180 | deleting the order a request left behind restores the tables from before it, except the key counter |
| OrdersInventory.PlaceOrderInventory | orders/views.py:46-98 | for every cart and answer: tables stay consistent, no oversell, totals square the quantity, and deleting the new order undoes the request |
| OrdersInventory.DeleteOrderKeepsValid | orders/views.py:173-180 | deleting keeps the tables consistent |
| OrdersInventory.DeleteOrderTwice | orders/views.py:167-181 | a second delete of the same order finds nothing and changes nothing |
| OrdersInventory.UpdateStatusKeepsValid | orders/views.py:142-157 | changing a status keeps the tables consistent |
| OrdersScenarios.ResolveOnly | orders/views.py:61 | a name matching the only product resolves to it |
| OrdersScenarios.ValidateOneEntry | orders/serializers.py:9-18 | a one-entry cart with a clean name and positive quantity validates unchanged |
| OrdersScenarios.StepOnly | orders/views.py:61-81 | ordering the only product with enough stock reserves one line and lowers its stock |
| OrdersScenarios.PlaceOneAvailable | orders/views.py:46-93 | one available product: created, one line at unit times quantity, stock lowered |
| OrdersScenarios.PlaceOneShort | orders/views.py:64-69 | one short product: the answer names it and an order without lines is committed |
| OrdersScenarios.PlaceOneUnknown | orders/views.py:84-90 | one unknown name: the empty answer, and an order without lines is committed |
| OrdersScenarios.PhoneBoughtTwice | orders/views.py:46-93 | two phones from 100 at 5000.99: created, 98 left, line of 2 priced 10001.98 |
| OrdersScenarios.PhoneTotalCountsQuantityTwice | orders/views.py:75 | that order totals 20003.96 by `calculate_total`, twice what the two phones cost |
| OrdersScenarios.WalkOneAvailable | orders/views.py:59-85 | one entry for the only product, with enough stock, reserves one line and lowers the stock by the quantity |
| OrdersScenarios.PhoneWalk | orders/views.py:59-85 | the phone cart validates unchanged, and its walk reserves two phones in one line |
| OrdersScenarios.UnitPricedFinished | orders/views.py:46-93 | a valid cart whose walk finishes with a line: the view writing unit prices creates the order and commits the walk repriced |
| OrdersScenarios.PhoneRepriced | orders/views.py:71-76 | the phone line at the unit price is two phones at 5000.99 |
| OrdersScenarios.PhoneUnitPricedTotal | orders/models.py:47-49 | with unit prices, the phone order holds two phones at 5000.99 and totals 10001.98 |
| OrdersScenarios.ShortStockKeepsEmptyOrder | orders/views.py:64-69 | ten chairs from 5: short answer, a pending order without lines remains, stock stays 5; all-or-nothing changes nothing |
| OrdersScenarios.UnknownNameKeepsEmptyOrder | orders/views.py:84-90 | an unknown name: empty answer, a pending order without lines remains; all-or-nothing changes nothing |
| OrdersScenarios.DeletePendingOrder | orders/views.py:173-181 | deleting a pending order of two phones and a chair puts 2 and 1 back and removes it |
| OrdersScenarios.DeleteShippedOrder | orders/views.py:170-171 | deleting a shipped order is refused and changes nothing |
| OrdersTasks.SweepSpec | orders/tasks.py:58-64 | exactly the orders that are not cancelled remain, unchanged |
| OrdersTasks.DeleteCancelledOrders | orders/tasks.py:58-64 | the periodic job leaves the orders of `SweepSpec`, touches nothing else, and keeps the tables consistent |
| OrdersTasks.SweepIdempotent | orders/tasks.py:61-64 | a second sweep deletes nothing |
| OrdersTasks.SweepKeepsValid | orders/tasks.py:61-64 | sweeping keeps the tables consistent |
| OrdersTasks.SweepDropsHeldUnits | orders/tasks.py:62-64 | sweeping a cancelled order with a line does not restock, where the delete view would |
| CommonPermissions.IsOwnerHasPermission | common/permissions.py:6-9 | admitted exactly when signed in |
| CommonPermissions.IsOwnerHasObjectPermission | common/permissions.py:11-12 | admitted exactly when the caller is the order's owner |
| CommonPermissions.IsAdminHasPermission | common/permissions.py:17-20 | admitted exactly when signed in |
| CommonPermissions.IsAdminHasObjectPermission | common/permissions.py:22-23 | admitted exactly when the caller is staff |
| CommonPermissions.OwnerIsSignedIn | common/permissions.py:6-12 | an owner passes the view-level check |
| CommonPermissions.AdminCheckIgnoresOwner | common/permissions.py:22-23 | the staff check gives the same answer for every order; an owner who is not staff fails it |
| CommonPermissions.AdminViewCheckIsOwnerViewCheck | common/permissions.py:6-20 | the two view-level checks admit the same callers |
| AccountsModels.Rendered | accounts/models.py:31 | a present text renders as itself, a null as `None` |
| AccountsModels.FullName | accounts/models.py:29-34 | first name, space, rendered patronymic, space, last name, in that order |
| AccountsModels.FullNameWithoutPatronymic | accounts/models.py:22-31 | a user without a patronymic shows `None` in the middle |
| AccountsModels.FullNameExample | accounts/models.py:29-31 | Andrey, Olegovich, Diatlov gives `Andrey Olegovich Diatlov` |
| AccountsModels.HasPerm | accounts/models.py:36-37 | every permission is granted |
| AccountsModels.HasModulePerms | accounts/models.py:39-40 | every app's permissions are granted |
| AccountsModels.IsSuperuser | accounts/models.py:42-44 | superuser exactly when staff |
| AccountsModels.UserByEmail | accounts/models.py:21-24 | with unique emails, the sign-in lookup finds a user exactly when one has the email, and that user is the only one |
| AccountsSerializers.Validate | accounts/serializers.py:37-46 | accepted exactly when the two passwords agree (both missing agrees), data unchanged; otherwise the error is keyed by `password_confirm` |
| AccountsSerializers.ValidatedPasswordConfirmed | accounts/serializers.py:37-50 | accepted data with a password has the same confirmation |
| AccountsSerializers.Create | accounts/serializers.py:48-62 | fails on the first missing key in pop-and-read order; otherwise `create_user` gets the fields, the password, and the patronymic or null |
| AccountsSerializers.Group | accounts/serializers.py:19-22 | the group is `admin2` exactly for staff and `user` otherwise |
| AccountsSerializers.GetToken | accounts/serializers.py:10-24 | the token adds exactly the email, names, username and group claims and keeps every other claim of the base token |
| AccountsSerializers.GroupIsSuperuser | accounts/serializers.py:19-22 | the group is `admin2` exactly for superusers |

## Left out

- Row locks: `select_for_update` and concurrent requests. The engine runs one request at a time.
- The 60-second cache in `get_object`: the lookup always reads the current table. A stale cached order is not modelled.
- Signals, email notifications and PDF generation (orders/signals.py) are not part of this model.
- The remote call queued when an order is shipped: only the count of queued calls is kept. The HTTP request, its cache and its errors are outside the model.
- The JWT machinery behind the base token: the base token is a parameter of `GetToken`.
- `LoginSerializer` and `authenticate`: credential checking lives in Django and is not modelled.
- products/views.py, accounts/views.py and the admin2 views (listing, filtering, paging) are not part of this model.
- `created_at` and `updated_at`: clocks are left out, and with them the ordering of listings by date.
- accounts/managers.py is not part of this model. `create_user` and password hashing are represented by the arguments `Create` hands over (`NewUser`).
- Deleting a user and the cascade to that user's orders are not modelled. Deleting a product is, as `DeleteProduct`.
- The `max_digits=10` limit of decimal fields is checked only where a product is validated (`ValidateProduct`). Elsewhere prices and line prices are unbounded integers of cents, and a line price over the column's limit is not rejected.
- ProductsSerializers.ValidateProduct: covers the name, price, stock and category fields. It leaves out the optional `description`, a field that is missing from the request, a price sent with more than two decimals, and the database-specific upper bound of a `PositiveIntegerField`.
- Text.Fold: upper-cases ASCII and basic Cyrillic letters only. The full Unicode case folding a database applies to `iexact` is not modelled.
- Access control on the order views: in the source it has no effect. The `@permission_classes` decorators on the detail view's methods (orders/views.py:120, 141, 166) are ignored on the methods of a class-based view, and the list view's `permission_class` (orders/views.py:24) is not a name the framework reads. The views run for whatever caller the project-wide default policy admits, and that policy is not part of this model. The two permission classes are modelled on their own, as predicates in `CommonPermissions`.
- AccountsSerializers.Validate: a field sent as null and a field left out are the same in the model, since request data is a map of texts.
- `validate_total_price` runs on a read-only field, so it never runs on a request. `ValidateTotalPrice` models the validator on its own.
- The update serializer's field set is modelled only as the optional `status` text given to `UpdateStatus`. Other fields of the request are ignored, as the serializer ignores them.
- The listing view (`OrderByUserListView.get`) and the response serializers' output shapes are not modelled.
- The status written by the create view is always `pending`: the serializer's `status` is read-only, so `validated_data.get('status', 'pending')` gives the default.

## Findings

| source | as written | input that shows it | evidently intended | confidence | as-written member | corrected member |
|---|---|---|---|---|---|---|
| orders/views.py:64-90 | the error answers for short stock and for no known product `return` from inside `transaction.atomic()`, so the block commits: the order row and any lines reserved earlier stay, although the client is told the order failed | a cart `[Chair × 10]` when 5 chairs are in stock: answer 400, and a pending order without lines remains | an error answer leaves the tables as they were | high (not executed) | OrdersScenarios.ShortStockKeepsEmptyOrder | OrdersInventory.AllOrNothingOutcome |
| orders/views.py:75 | the create view stores a line's `price` as unit price times quantity, while `calculate_total` (orders/models.py:47-48) multiplies `price` by the quantity again, so the quantity counts twice | two phones at 5000.99: the line price is 10001.98, and `total_price` is 20003.96 | a line's `price` is the product's unit price, as the item's field description and the model's own tests read it, so the order totals the sum of unit price times quantity, 10001.98 | high (not executed) | OrdersScenarios.PhoneTotalCountsQuantityTwice | OrdersInventory.UnitPricedPlaceOutcome |
