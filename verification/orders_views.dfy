/** The order views of `orders/views.py` as methods of one object holding the
    two tables. Each method changes the tables the way the view does, step by
    step, and promises the outcome that `OrdersSpec` describes. */
module OrdersViews {
  import opened Wrappers
  import opened ProductsModels
  import opened OrdersModels
  import opened OrdersSerializers
  import opened OrdersSpec
  import opened OrdersInventory

  class OrderEngine {
    var catalog: Catalog
    var orders: OrderTable
    /** The primary key the next order row will get. */
    var nextId: OrderId
    /** How many `call_remote_api` tasks have been queued. */
    var remoteCalls: nat

    function State(): Db
      reads this
    {
      Db(catalog, orders, nextId, remoteCalls)
    }

    ghost predicate Valid()
      reads this
    {
      DbValid(State())
    }

    constructor (products: Catalog)
      ensures State() == Db(products, map[], 0, 0)
      ensures Valid()
    {
      catalog := products;
      orders := map[];
      nextId := 0;
      remoteCalls := 0;
    }

    /** `get_object`: the order, or nothing (the view's `Http404`). */
    method GetObject(id: OrderId) returns (r: Option<Order>)
      ensures r.Some? <==> id in orders
      ensures r.Some? ==> r.value == orders[id]
    {
      if id in orders {
        r := Some(orders[id]);
      } else {
        r := None;
      }
    }

    /** The body of the create view's loop for one entry of order `id`, with
        `count` lines written so far: look the product up by name, check its
        stock, write the line and take the quantity off the stock. Nothing is
        written when the walk stops. */
    method ReserveEntry(id: OrderId, entry: CartEntry, count: nat) returns (next: Next)
      requires id in orders && entry.quantity >= 1
      modifies this
      ensures next == Step(Progress(old(catalog), old(orders)[id].lines, count), entry)
      ensures next.Continue? ==> catalog == next.progress.catalog
                                 && orders == old(orders)[id := old(orders)[id].(lines := next.progress.lines)]
      ensures !next.Continue? ==> catalog == old(catalog) && orders == old(orders)
      ensures nextId == old(nextId) && remoteCalls == old(remoteCalls)
    {
      var lines := orders[id].lines;
      var hit := Resolve(catalog, entry.productName);
      if hit.NoMatch? {
        // `Product.DoesNotExist`: skip the entry
        return Continue(Progress(catalog, lines, count));
      }
      if hit.Ambiguous? {
        // `MultipleObjectsReturned`
        return Broken;
      }
      var p := hit.id;
      var product := catalog[p];
      var quantity: nat := entry.quantity;
      if product.stock < quantity {
        return Short(product.name);
      }
      if p in lines {
        // a second line for the product breaks `unique_together`
        return Broken;
      }
      lines := lines[p := PricedLine(product.priceCents, quantity)];
      orders := orders[id := orders[id].(lines := lines)];
      catalog := catalog[p := product.(stock := product.stock - quantity)];
      return Continue(Progress(catalog, lines, count + 1));
    }

    /** The create view's loop over the validated cart for the new order
        `id`, which has no lines yet. It ends as the walk does; on a rollback
        what it wrote is left for the caller to undo. */
    method ReserveLines(id: OrderId, entries: seq<CartEntry>) returns (end: WalkEnd)
      requires CartValidated(entries) && id in orders && orders[id].lines == map[]
      modifies this
      ensures end == Walk(Progress(old(catalog), map[], 0), entries)
      ensures !end.RolledBack? ==> catalog == end.progress.catalog
                                   && orders == old(orders)[id := old(orders)[id].(lines := end.progress.lines)]
      ensures nextId == old(nextId) && remoteCalls == old(remoteCalls)
    {
      var count: nat := 0;
      var i := 0;
      ghost var start := Progress(catalog, map[], 0);
      while i < |entries|
        invariant 0 <= i <= |entries|
        invariant nextId == old(nextId) && remoteCalls == old(remoteCalls)
        invariant id in orders && orders == old(orders)[id := old(orders)[id].(lines := orders[id].lines)]
        invariant Walk(start, entries) == Walk(Progress(catalog, orders[id].lines, count), entries[i..])
      {
        assert entries[i..][0] == entries[i] && entries[i..][1..] == entries[i + 1..];
        var pr := Progress(catalog, orders[id].lines, count);
        var next := ReserveEntry(id, entries[i], count);
        match next
        case Broken =>
          return RolledBack;
        case Short(name) =>
          return OutOfStock(pr, name);
        case Continue(after) =>
          count := after.count;
        i := i + 1;
      }
      assert entries[i..] == [];
      return Finished(Progress(catalog, orders[id].lines, count));
    }

    /** The `with transaction.atomic()` block of the create view: create a
        pending order, then walk the cart reserving stock line by line. */
    method AtomicCreate(user: UserId, entries: seq<CartEntry>) returns (r: PlaceResult)
      requires CartValidated(entries)
      modifies this
      ensures (r, State()) == AtomicCreateSpec(old(State()), user, entries)
    {
      ghost var db := State();
      ghost var start := Progress(db.catalog, map[], 0);
      // what an exception would restore
      var savedCatalog, savedOrders, savedNext := catalog, orders, nextId;
      var id := nextId;
      orders := orders[id := Order(user, DefaultStatus, map[])];
      nextId := nextId + 1;
      ghost var created := orders;
      var end := ReserveLines(id, entries);
      match end
      case RolledBack =>
        // the exception escapes the block: roll back
        catalog, orders, nextId := savedCatalog, savedOrders, savedNext;
        assert AtomicCreateSpec(db, user, entries) == (Aborted, db);
        return Aborted;
      case OutOfStock(pr, name) =>
        // the early return leaves the block normally: commit
        assert orders == created[id := created[id].(lines := pr.lines)] == db.orders[id := Order(user, DefaultStatus, pr.lines)];
        assert State() == Committed(db, user, pr) by {
          assert State() == Db(pr.catalog, db.orders[id := Order(user, DefaultStatus, pr.lines)], id + 1, db.remoteCalls);
        }
        assert AtomicCreateSpec(db, user, entries) == (InsufficientStock(name), Committed(db, user, pr));
        return InsufficientStock(name);
      case Finished(pr) =>
        assert orders == created[id := created[id].(lines := pr.lines)] == db.orders[id := Order(user, DefaultStatus, pr.lines)];
        assert State() == Committed(db, user, pr) by {
          assert State() == Db(pr.catalog, db.orders[id := Order(user, DefaultStatus, pr.lines)], id + 1, db.remoteCalls);
        }
        r := if pr.count == 0 then EmptyOrder else Created(id);
        assert AtomicCreateSpec(db, user, entries) == (r, Committed(db, user, pr));
    }

    /** `OrderByUserListView.post`: validate the cart, then run the block. */
    method PlaceOrder(user: UserId, cart: seq<CartEntry>) returns (r: PlaceResult)
      requires Valid()
      modifies this
      ensures (r, State()) == PlaceOrderSpec(old(State()), user, cart)
      ensures Valid()
    {
      PlaceOrderInventory(State(), user, cart);
      var validated := ValidateCart(cart);
      if validated.None? {
        return InvalidData;
      }
      r := AtomicCreate(user, validated.value);
    }

    /** The create view with its error answers rolling back as well: the
        walk runs as in `PlaceOrder`, and unless an order was created the
        tables are put back as they were. */
    method PlaceOrderAllOrNothing(user: UserId, cart: seq<CartEntry>) returns (r: PlaceResult)
      requires Valid()
      modifies this
      ensures (r, State()) == AllOrNothingPlaceSpec(old(State()), user, cart)
      ensures Valid()
    {
      var saved := State();
      r := PlaceOrder(user, cart);
      ghost var placed := (r, State());
      if !r.Created? {
        catalog, orders, nextId, remoteCalls := saved.catalog, saved.orders, saved.nextId, saved.remoteCalls;
      }
      assert (r, State()) == KeepCreated(saved, placed);
    }

    /** `OrderDetailView.put`, given the `status` the client sent (if any). */
    method UpdateStatus(id: OrderId, requested: Option<string>) returns (r: UpdateResult)
      requires Valid()
      modifies this
      ensures (r, State()) == UpdateStatusSpec(old(State()), id, requested)
      ensures Valid()
    {
      UpdateStatusKeepsValid(State(), id, requested);
      if id !in orders {
        return OrderNotFound;
      }
      var order := orders[id];
      if requested.None? {
        // nothing to write; the view still answers 200
        return Saved;
      }
      var parsed := ParseStatus(requested.value);
      if parsed.None? {
        return InvalidStatus;
      }
      var status := parsed.value;
      if status == order.status {
        return AlreadySet;
      }
      orders := orders[id := order.(status := status)];
      if status == Shipped {
        remoteCalls := remoteCalls + 1;
      }
      return Saved;
    }

    /** `OrderDetailView.delete`: refuse shipped or delivered orders, otherwise
        put every line's quantity back into stock and delete the order. */
    method DeleteOrder(id: OrderId) returns (r: DeleteResult)
      requires Valid()
      modifies this
      ensures (r, State()) == DeleteOrderSpec(old(State()), id)
      ensures Valid()
    {
      DeleteOrderKeepsValid(State(), id);
      if id !in orders {
        return NotFound;
      }
      var order := orders[id];
      if order.status == Shipped || order.status == Delivered {
        return Refused;
      }
      ReturnStock(order.lines);
      orders := orders - {id};
      return Deleted;
    }

    /** The loop of the delete view over the order's items: each line's
        quantity goes back into its product's stock. */
    method ReturnStock(lines: Lines)
      requires lines.Keys <= catalog.Keys
      modifies this
      ensures catalog == Restock(old(catalog), lines)
      ensures orders == old(orders) && nextId == old(nextId) && remoteCalls == old(remoteCalls)
    {
      var pending := lines.Keys;
      while pending != {}
        invariant pending <= lines.Keys
        invariant catalog.Keys == old(catalog).Keys
        invariant forall q :: q in catalog ==>
                    catalog[q] == old(catalog)[q].(stock := old(catalog)[q].stock + (if q in pending then 0 else Held(lines, q)))
        invariant orders == old(orders) && nextId == old(nextId) && remoteCalls == old(remoteCalls)
        decreases pending
      {
        var p :| p in pending;
        var product := catalog[p];
        catalog := catalog[p := product.(stock := product.stock + lines[p].quantity)];
        pending := pending - {p};
      }
      ghost var restocked := Restock(old(catalog), lines);
      forall q | q in catalog
        ensures catalog[q] == restocked[q]
      {
      }
    }
  }
}
