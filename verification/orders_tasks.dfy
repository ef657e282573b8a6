/** The periodic sweep of `orders/tasks.py`: delete every cancelled order.
    The order's lines go with it (they live inside the order), and the stock
    they hold is not put back. */
module OrdersTasks {
  import opened ProductsModels
  import opened OrdersModels
  import opened OrdersSpec
  import opened OrdersViews

  /** The order table with the cancelled orders gone. */
  function SweepSpec(orders: OrderTable): (kept: OrderTable)
    ensures forall id :: id in kept <==> id in orders && orders[id].status != Cancelled
    ensures forall id :: id in kept ==> kept[id] == orders[id]
  {
    map id | id in orders && orders[id].status != Cancelled :: orders[id]
  }

  /** `delete_cancelled_orders`: walk over all the orders as they were when
      the sweep started and delete each one whose status is cancelled. */
  method DeleteCancelledOrders(engine: OrderEngine)
    requires engine.Valid()
    modifies engine
    ensures engine.orders == SweepSpec(old(engine.orders))
    ensures engine.catalog == old(engine.catalog)
    ensures engine.nextId == old(engine.nextId) && engine.remoteCalls == old(engine.remoteCalls)
    ensures engine.Valid()
  {
    SweepKeepsValid(engine.State());
    var snapshot := engine.orders.Keys;
    var pending := snapshot;
    while pending != {}
      invariant pending <= snapshot == old(engine.orders).Keys
      invariant forall id :: id in engine.orders <==>
                  id in old(engine.orders) && (id in pending || old(engine.orders)[id].status != Cancelled)
      invariant forall id :: id in engine.orders ==> engine.orders[id] == old(engine.orders)[id]
      invariant engine.catalog == old(engine.catalog)
      invariant engine.nextId == old(engine.nextId) && engine.remoteCalls == old(engine.remoteCalls)
      decreases pending
    {
      var id :| id in pending;
      if engine.orders[id].status == Cancelled {
        engine.orders := engine.orders - {id};
      }
      pending := pending - {id};
    }
    assert engine.orders == SweepSpec(old(engine.orders));
  }

  /** A second sweep finds nothing left to delete. */
  lemma SweepIdempotent(orders: OrderTable)
    ensures SweepSpec(SweepSpec(orders)) == SweepSpec(orders)
  {
    assert SweepSpec(SweepSpec(orders)).Keys == SweepSpec(orders).Keys;
  }

  /** The sweep keeps the tables consistent. */
  lemma SweepKeepsValid(db: Db)
    requires DbValid(db)
    ensures DbValid(db.(orders := SweepSpec(db.orders)))
  {
  }

  /** The units a swept order held are lost: where the delete view would
      put them back into stock, the sweep leaves the catalog as it was. */
  lemma SweepDropsHeldUnits(db: Db, id: OrderId, p: ProductId)
    requires DbValid(db)
    requires id in db.orders && db.orders[id].status == Cancelled
    requires p in db.orders[id].lines && db.orders[id].lines[p].quantity >= 1
    ensures var swept := db.(orders := SweepSpec(db.orders));
      && id !in swept.orders
      && swept.catalog == db.catalog
      && DeleteOrderSpec(db, id).0 == Deleted
      && DeleteOrderSpec(db, id).1.catalog != swept.catalog
  {
    assert p in db.catalog;
    assert Held(db.orders[id].lines, p) == db.orders[id].lines[p].quantity;
  }
}
