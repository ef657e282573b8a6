/** What the three order views of `orders/views.py` do to the two tables,
    stated as functions from the tables before a request to the response and
    the tables after it; the lemmas below state the inventory properties.

    The database is one value `Db`: the product catalog, the order table
    (each order holding its lines), the next order primary key, and the number
    of remote-API calls the status view has queued. */
module OrdersSpec {
  import opened Wrappers
  import opened Text
  import opened ProductsModels
  import opened OrdersModels
  import opened OrdersSerializers

  type Catalog = map<ProductId, Product>
  type Lines = map<ProductId, Line>
  type OrderTable = map<OrderId, Order>

  datatype Db = Db(catalog: Catalog, orders: OrderTable, nextId: OrderId, remoteCalls: nat)

  /** Referential integrity: every order key was handed out already, and
      every line refers to a product of the catalog. */
  ghost predicate DbValid(db: Db)
  {
    && (forall id :: id in db.orders ==> id < db.nextId)
    && (forall id, p :: id in db.orders && p in db.orders[id].lines ==> p in db.catalog)
  }

  /** How many units of `p` the lines hold (0 when there is no line for it). */
  function Held(lines: Lines, p: ProductId): nat
  {
    if p in lines then lines[p].quantity else 0
  }

  // ---------------------------------------------------------------------------
  // Looking a product up by name

  /** The products whose name equals `name` ignoring case. */
  function Matches(catalog: Catalog, name: string): (hits: set<ProductId>)
    ensures forall p :: p in hits <==> p in catalog && SameFolded(catalog[p].name, name)
  {
    set p | p in catalog && SameFolded(catalog[p].name, name)
  }

  /** The three outcomes of `Product.objects.get(name__iexact=...)`:
      `DoesNotExist`, `MultipleObjectsReturned`, or the one product. */
  datatype Resolution = NoMatch | Ambiguous | Found(id: ProductId)

  /** A set with one member has no two different members. */
  lemma SingletonUnique(s: set<ProductId>)
    requires |s| == 1
    ensures forall a, b :: a in s && b in s ==> a == b
  {
    var x :| x in s;
    assert |s - {x}| == 0;
    assert s - {x} == {};
  }

  function Resolve(catalog: Catalog, name: string): (r: Resolution)
    ensures r.NoMatch? <==> Matches(catalog, name) == {}
    ensures r.Ambiguous? <==> |Matches(catalog, name)| >= 2
    ensures r.Found? ==> Matches(catalog, name) == {r.id}
  {
    var hits := Matches(catalog, name);
    if hits == {} then NoMatch
    else if |hits| >= 2 then Ambiguous
    else
      SingletonUnique(hits);
      var p :| p in hits;
      Found(p)
  }

  /** Two catalogs that differ at most in stock. */
  ghost predicate SameProducts(c: Catalog, d: Catalog)
  {
    c.Keys == d.Keys && forall p :: p in c ==> d[p] == c[p].(stock := d[p].stock)
  }

  /** Name lookup does not depend on stock. */
  lemma ResolveIgnoresStock(c: Catalog, d: Catalog, name: string)
    requires SameProducts(c, d)
    ensures Resolve(c, name) == Resolve(d, name)
  {
    assert Matches(c, name) == Matches(d, name);
  }

  // ---------------------------------------------------------------------------
  // Placing an order (`OrderByUserListView.post`)

  /** Where the walk over the cart stands: the catalog, the lines created so
      far, and `products_count`. */
  datatype Progress = Progress(catalog: Catalog, lines: Lines, count: nat)

  /** How the walk ends: all entries done, an early `return` on an entry whose
      stock is short (naming that product), or an exception that rolls the
      transaction back (an ambiguous name, or a second line for one product,
      which breaks the unique constraint). */
  datatype WalkEnd = Finished(progress: Progress) | OutOfStock(progress: Progress, productName: string) | RolledBack

  /** What one entry of the cart does: the walk goes on (with the entry
      reserved, or skipped when no product has its name), stops on short
      stock, or raises. */
  datatype Next = Continue(progress: Progress) | Short(productName: string) | Broken

  /** One pass of the view's loop body. */
  function Step(pr: Progress, entry: CartEntry): Next
    requires entry.quantity >= 1
  {
    match Resolve(pr.catalog, entry.productName)
    case NoMatch => Continue(pr)
    case Ambiguous => Broken
    case Found(p) =>
      var product := pr.catalog[p];
      if product.stock < entry.quantity then Short(product.name)
      else if p in pr.lines then Broken
      else
        Continue(Progress(pr.catalog[p := product.(stock := product.stock - entry.quantity)],
                          pr.lines[p := PricedLine(product.priceCents, entry.quantity)],
                          pr.count + 1))
  }

  /** The loop of the view over the validated cart, one entry at a time. */
  function Walk(pr: Progress, cart: seq<CartEntry>): WalkEnd
    requires CartValidated(cart)
    decreases |cart|
  {
    if cart == [] then Finished(pr)
    else
      match Step(pr, cart[0])
      case Continue(after) => Walk(after, cart[1..])
      case Short(name) => OutOfStock(pr, name)
      case Broken => RolledBack
  }

  /** The entries after the first of a validated cart are validated. */
  lemma ValidatedTail(cart: seq<CartEntry>)
    requires CartValidated(cart)
    ensures cart != [] ==> CartValidated(cart[1..])
  {
    if cart != [] {
      forall i | 0 <= i < |cart[1..]|
        ensures cart[1..][i].productName != [] && cart[1..][i].quantity >= 1
      {
        assert cart[1..][i] == cart[i + 1];
      }
    }
  }

  /** Unless it raises, the walk keeps the products and the lines it
      started with, and adds at most one line per entry, each counted once
      by `products_count`; it stops on short stock only at some entry. */
  lemma {:induction false} WalkCountsLines(pr: Progress, cart: seq<CartEntry>)
    requires CartValidated(cart)
    ensures Walk(pr, cart).OutOfStock? ==> cart != []
    ensures var w := Walk(pr, cart);
      !w.RolledBack? ==>
        && w.progress.catalog.Keys == pr.catalog.Keys
        && pr.lines.Keys <= w.progress.lines.Keys
        && w.progress.count - pr.count == |w.progress.lines| - |pr.lines| <= |cart|
    decreases |cart|
  {
    if cart != [] {
      ValidatedTail(cart);
      match Step(pr, cart[0])
      case Continue(after) =>
        WalkCountsLines(after, cart[1..]);
      case Short(_) =>
      case Broken =>
    }
  }

  /** The response of the create view. */
  datatype PlaceResult =
    | Created(id: OrderId)
    | InsufficientStock(productName: string)
    | EmptyOrder
    | InvalidData
    | Aborted

  /** The tables when the transaction commits: the walk's catalog and the
      new pending order with the walk's lines under the next key; the other
      orders stay (`CommittedIsPlaced` states it). */
  function Committed(db: Db, user: UserId, pr: Progress): Db
  {
    Db(pr.catalog, db.orders[db.nextId := Order(user, DefaultStatus, pr.lines)], db.nextId + 1, db.remoteCalls)
  }

  /** The `atomic` block of the create view on a validated cart. The order
      row is created before the walk; the early returns for short stock and
      for an order without lines leave the block normally, so what was
      written so far is committed; only an exception rolls everything back. */
  function AtomicCreateSpec(db: Db, user: UserId, entries: seq<CartEntry>): (out: (PlaceResult, Db))
    requires CartValidated(entries)
    ensures out.0 != InvalidData
    ensures out.0 == Aborted <==> out.1 == db
    ensures out.0 != Aborted ==>
              && out.1.orders.Keys == db.orders.Keys + {db.nextId}
              && out.1.orders[db.nextId].user == user && out.1.orders[db.nextId].status == Pending
              && out.1.nextId == db.nextId + 1 && out.1.remoteCalls == db.remoteCalls
    ensures out.0.Created? ==> out.0.id == db.nextId && out.1.orders[db.nextId].lines != map[]
    ensures out.0 == EmptyOrder ==> out.1.orders[db.nextId].lines == map[]
  {
    WalkCountsLines(Progress(db.catalog, map[], 0), entries);
    match Walk(Progress(db.catalog, map[], 0), entries)
    case RolledBack => (Aborted, db)
    case OutOfStock(pr, name) => (InsufficientStock(name), Committed(db, user, pr))
    case Finished(pr) =>
      (if pr.count == 0 then EmptyOrder else Created(db.nextId), Committed(db, user, pr))
  }

  /** The create view: an invalid cart is refused before anything is written. */
  function PlaceOrderSpec(db: Db, user: UserId, cart: seq<CartEntry>): (out: (PlaceResult, Db))
    ensures out.0 == InvalidData <==> ValidateCart(cart).None?
    ensures out.0 == InvalidData || out.0 == Aborted ==> out.1 == db
    ensures out.0 != InvalidData && out.0 != Aborted ==>
              && out.1.orders.Keys == db.orders.Keys + {db.nextId}
              && out.1.nextId == db.nextId + 1
    ensures out.0.Created? ==> out.0.id == db.nextId && out.1.orders[db.nextId].lines != map[]
  {
    match ValidateCart(cart)
    case None => (InvalidData, db)
    case Some(entries) => AtomicCreateSpec(db, user, entries)
  }

  /** The create view as its error answers mean it: an order is kept only
      when it is created, and every other answer leaves the tables as they
      were, which is what wrapping the whole walk in one transaction that
      the error answers abort would give. */
  function AllOrNothingPlaceSpec(db: Db, user: UserId, cart: seq<CartEntry>): (out: (PlaceResult, Db))
    ensures out.0 == PlaceOrderSpec(db, user, cart).0
    ensures !out.0.Created? ==> out.1 == db
    ensures out.0.Created? ==>
              && out.1.orders.Keys == db.orders.Keys + {db.nextId}
              && out.1.orders[db.nextId].lines != map[]
  {
    KeepCreated(db, PlaceOrderSpec(db, user, cart))
  }

  /** The outcome of a placement, with the tables put back to `db` unless an
      order was created. */
  function KeepCreated(db: Db, placed: (PlaceResult, Db)): (out: (PlaceResult, Db))
    ensures out.0 == placed.0
    ensures out.1 == if placed.0.Created? then placed.1 else db
  {
    if placed.0.Created? then placed else (placed.0, db)
  }

  /** The lines with each `price` set to the product's unit price, as the
      model's docstrings and the tests read that field. */
  function UnitPriced(catalog: Catalog, lines: Lines): (priced: Lines)
    ensures priced.Keys == lines.Keys
    ensures forall p :: p in lines ==> priced[p].quantity == lines[p].quantity
    ensures forall p :: p in lines && p in catalog ==> priced[p] == UnitLine(catalog[p].priceCents, lines[p].quantity)
  {
    map p | p in lines :: UnitLine(if p in catalog then catalog[p].priceCents else 0, lines[p].quantity)
  }

  /** The create view with each line written at the unit price instead of
      unit price times quantity: the same walk and the same answers, and
      the committed order holds the walk's quantities at the unit prices. */
  function UnitPricedPlaceSpec(db: Db, user: UserId, cart: seq<CartEntry>): (out: (PlaceResult, Db))
  {
    match ValidateCart(cart)
    case None => (InvalidData, db)
    case Some(entries) =>
      match Walk(Progress(db.catalog, map[], 0), entries)
      case RolledBack => (Aborted, db)
      case OutOfStock(pr, name) =>
        (InsufficientStock(name), Committed(db, user, pr.(lines := UnitPriced(db.catalog, pr.lines))))
      case Finished(pr) =>
        (if pr.count == 0 then EmptyOrder else Created(db.nextId),
         Committed(db, user, pr.(lines := UnitPriced(db.catalog, pr.lines))))
  }

  // ---------------------------------------------------------------------------
  // Changing the status (`OrderDetailView.put`)

  datatype UpdateResult = OrderNotFound | InvalidStatus | AlreadySet | Saved

  /** The update view, given the `status` the client sent (if any). */
  function UpdateStatusSpec(db: Db, id: OrderId, requested: Option<string>): (out: (UpdateResult, Db))
    ensures var (r, db') := out;
      && db'.catalog == db.catalog && db'.nextId == db.nextId
      && (r != Saved ==> db' == db)
      && (r == OrderNotFound <==> id !in db.orders)
      && (r == InvalidStatus <==> id in db.orders && requested.Some? && ParseStatus(requested.value).None?)
      && (r == AlreadySet <==> id in db.orders && requested.Some?
                                && ParseStatus(requested.value) == Some(db.orders[id].status))
      && (r == Saved && requested.Some? ==>
            && ParseStatus(requested.value).Some?
            && db'.orders == db.orders[id := db.orders[id].(status := ParseStatus(requested.value).value)])
      && (r == Saved && requested.None? ==> db' == db)
      && (db'.remoteCalls == db.remoteCalls + 1 <==>
            r == Saved && requested.Some? && ParseStatus(requested.value) == Some(Shipped))
      && (db'.remoteCalls != db.remoteCalls + 1 ==> db'.remoteCalls == db.remoteCalls)
  {
    if id !in db.orders then (OrderNotFound, db)
    else
      match requested
      case None => (Saved, db)
      case Some(text) =>
        match ParseStatus(text)
        case None => (InvalidStatus, db)
        case Some(status) =>
          if status == db.orders[id].status then (AlreadySet, db)
          else
            var orders := db.orders[id := db.orders[id].(status := status)];
            var calls := if status == Shipped then db.remoteCalls + 1 else db.remoteCalls;
            (Saved, db.(orders := orders, remoteCalls := calls))
  }

  // ---------------------------------------------------------------------------
  // Deleting an order (`OrderDetailView.delete`)

  datatype DeleteResult = NotFound | Refused | Deleted

  /** Every product gets back what the lines hold of it, and nothing else
      about it changes; restocking from no lines changes nothing. */
  function Restock(catalog: Catalog, lines: Lines): (restocked: Catalog)
    ensures restocked.Keys == catalog.Keys
    ensures forall p :: p in catalog ==>
              restocked[p] == catalog[p].(stock := catalog[p].stock + Held(lines, p))
    ensures lines == map[] ==> restocked == catalog
  {
    map p | p in catalog :: catalog[p].(stock := catalog[p].stock + Held(lines, p))
  }

  /** Orders that were shipped or delivered cannot be deleted. */
  predicate Irreversible(s: Status)
  {
    s == Shipped || s == Delivered
  }

  /** The delete view. */
  function DeleteOrderSpec(db: Db, id: OrderId): (out: (DeleteResult, Db))
    ensures var (r, db') := out;
      && (r == NotFound <==> id !in db.orders)
      && (r == Refused <==> id in db.orders && Irreversible(db.orders[id].status))
      && (r != Deleted ==> db' == db)
      && (r == Deleted ==>
            && db'.orders == db.orders - {id}
            && db'.catalog.Keys == db.catalog.Keys
            && (forall p :: p in db.catalog ==>
                  db'.catalog[p] == db.catalog[p].(stock := db.catalog[p].stock + Held(db.orders[id].lines, p)))
            && db'.nextId == db.nextId && db'.remoteCalls == db.remoteCalls)
  {
    if id !in db.orders then (NotFound, db)
    else if Irreversible(db.orders[id].status) then (Refused, db)
    else (Deleted, db.(catalog := Restock(db.catalog, db.orders[id].lines), orders := db.orders - {id}))
  }

  // ---------------------------------------------------------------------------
  // Deleting a product (the `on_delete=CASCADE` of `OrderItem.product`)

  /** Removing a product removes every line that refers to it. */
  function DeleteProduct(db: Db, p: ProductId): (db': Db)
    ensures db'.catalog == db.catalog - {p}
    ensures db'.orders.Keys == db.orders.Keys
    ensures forall id :: id in db.orders ==>
              db'.orders[id] == db.orders[id].(lines := db.orders[id].lines - {p})
  {
    var orders := map id | id in db.orders :: db.orders[id].(lines := db.orders[id].lines - {p});
    db.(catalog := db.catalog - {p}, orders := orders)
  }
}
