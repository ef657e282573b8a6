/** Worked examples of the order views on small catalogs: a phone bought
    twice, a chair asked for beyond its stock, a cart whose one name matches
    nothing, and the deletion of a pending and of a shipped order. */
module OrdersScenarios {
  import opened Wrappers
  import opened Text
  import opened ProductsModels
  import opened OrdersModels
  import opened OrdersSerializers
  import opened OrdersSpec

  /** In a catalog of one product, a name that matches it resolves to it. */
  lemma ResolveOnly(catalog: Catalog, p: ProductId, name: string)
    requires catalog.Keys == {p} && SameFolded(catalog[p].name, name)
    ensures Resolve(catalog, name) == Found(p)
  {
    assert Matches(catalog, name) == {p};
  }

  /** A cart entry whose name has no surrounding whitespace and no NUL, and
      whose quantity is positive, passes validation unchanged. */
  lemma ValidateOneEntry(cart: seq<CartEntry>)
    requires |cart| == 1 && cart[0].quantity >= 1
    requires var n := cart[0].productName; n != [] && !IsSpace(n[0]) && !IsSpace(n[|n| - 1]) && '\0' !in n
    ensures ValidateCart(cart) == Some(cart)
  {
    var n := cart[0].productName;
    StripUnpadded(n);
    assert EntryValid(cart[0]);
    forall i | 0 <= i < |cart|
      ensures EntryValid(cart[i])
    {
      assert i == 0;
    }
    var v := ValidateCart(cart).value;
    assert |v| == 1 && v[0] == CartEntry(n, cart[0].quantity) == cart[0];
    assert v == cart;
  }

  /** The first entry for the only product, which has enough stock,
      reserves it. */
  lemma StepOnly(catalog: Catalog, p: ProductId, e: CartEntry)
    requires catalog.Keys == {p} && SameFolded(catalog[p].name, e.productName)
    requires 1 <= e.quantity <= catalog[p].stock
    ensures var product := catalog[p];
      Step(Progress(catalog, map[], 0), e)
        == Continue(Progress(map[p := product.(stock := product.stock - e.quantity)],
                             map[p := PricedLine(product.priceCents, e.quantity)], 1))
  {
    ResolveOnly(catalog, p, e.productName);
    var product := catalog[p];
    assert catalog[p := product.(stock := product.stock - e.quantity)]
           == map[p := product.(stock := product.stock - e.quantity)];
  }

  /** Walking one entry for the only product, which has enough stock,
      finishes with that entry reserved. */
  lemma WalkOneAvailable(catalog: Catalog, p: ProductId, e: CartEntry)
    requires catalog.Keys == {p} && e.productName != []
    requires SameFolded(catalog[p].name, e.productName)
    requires 1 <= e.quantity <= catalog[p].stock
    ensures CartValidated([e])
    ensures var product := catalog[p];
      Walk(Progress(catalog, map[], 0), [e])
        == Finished(Progress(map[p := product.(stock := product.stock - e.quantity)],
                             map[p := PricedLine(product.priceCents, e.quantity)], 1))
  {
    StepOnly(catalog, p, e);
    var product := catalog[p];
    var after := Progress(map[p := product.(stock := product.stock - e.quantity)],
                          map[p := PricedLine(product.priceCents, e.quantity)], 1);
    assert [e][1..] == [];
    assert Walk(Progress(catalog, map[], 0), [e]) == Walk(after, []) == Finished(after);
  }

  /** One entry for the only product, which has enough stock: the order is
      created with one line for it and its stock drops. */
  lemma PlaceOneAvailable(db: Db, user: UserId, p: ProductId, e: CartEntry)
    requires db.catalog.Keys == {p} && e.productName != []
    requires SameFolded(db.catalog[p].name, e.productName)
    requires 1 <= e.quantity <= db.catalog[p].stock
    ensures var product := db.catalog[p];
      AtomicCreateSpec(db, user, [e])
        == (Created(db.nextId),
            Db(map[p := product.(stock := product.stock - e.quantity)],
               db.orders[db.nextId := Order(user, Pending, map[p := PricedLine(product.priceCents, e.quantity)])],
               db.nextId + 1, db.remoteCalls))
  {
    WalkOneAvailable(db.catalog, p, e);
  }

  /** One entry for the only product, which has too little stock: the
      answer names the product, and the new order is left without lines. */
  lemma PlaceOneShort(db: Db, user: UserId, p: ProductId, e: CartEntry)
    requires db.catalog.Keys == {p} && e.productName != [] && e.quantity >= 1
    requires SameFolded(db.catalog[p].name, e.productName)
    requires db.catalog[p].stock < e.quantity
    ensures AtomicCreateSpec(db, user, [e])
            == (InsufficientStock(db.catalog[p].name),
                db.(orders := db.orders[db.nextId := Order(user, Pending, map[])], nextId := db.nextId + 1))
  {
    ResolveOnly(db.catalog, p, e.productName);
  }

  /** One entry whose name matches no product: the answer is that the order
      is empty, and the new order is left without lines. */
  lemma PlaceOneUnknown(db: Db, user: UserId, e: CartEntry)
    requires e.productName != [] && e.quantity >= 1
    requires forall q :: q in db.catalog ==> !SameFolded(db.catalog[q].name, e.productName)
    ensures AtomicCreateSpec(db, user, [e])
            == (EmptyOrder, db.(orders := db.orders[db.nextId := Order(user, Pending, map[])], nextId := db.nextId + 1))
  {
    assert Matches(db.catalog, e.productName) == {};
    var start := Progress(db.catalog, map[], 0);
    assert [e][1..] == [];
    assert Walk(start, [e]) == Walk(start, []) == Finished(start);
  }

  /** Two phones from a stock of 100 at 5000.99: the order is created with
      one line of quantity 2 priced 10001.98, and 98 phones are left. */
  lemma PhoneBoughtTwice(db: Db, user: UserId, p: ProductId, name: string, phone: Product, cart: seq<CartEntry>)
    requires name == "Phone" && phone == Product(name, 500099, 100, Electronics)
    requires db.catalog == map[p := phone] && cart == [CartEntry(name, 2)]
    ensures PlaceOrderSpec(db, user, cart)
            == (Created(db.nextId),
                Db(map[p := phone.(stock := 98)],
                   db.orders[db.nextId := Order(user, Pending, map[p := Line(2, 1000198)])],
                   db.nextId + 1, db.remoteCalls))
  {
    ValidateOneEntry(cart);
    PlaceOneAvailable(db, user, p, cart[0]);
  }

  /** The phone order's total: `calculate_total` multiplies the stored line
      price 10001.98 by the quantity 2 once more and answers 20003.96,
      twice what the two phones cost. */
  lemma PhoneTotalCountsQuantityTwice(db: Db, user: UserId, p: ProductId, name: string, phone: Product, cart: seq<CartEntry>)
    requires name == "Phone" && phone == Product(name, 500099, 100, Electronics)
    requires db.catalog == map[p := phone] && cart == [CartEntry(name, 2)]
    ensures var (r, after) := PlaceOrderSpec(db, user, cart);
      r == Created(db.nextId) && TotalPrice(after.orders[db.nextId]) == 2000396
  {
    PhoneBoughtTwice(db, user, p, name, phone, cart);
    TotalAddLine(map[], p, Line(2, 1000198));
  }

  /** The same request with the line written at the unit price: the order
      holds two phones at 5000.99 and totals 10001.98. */
  lemma PhoneUnitPricedTotal(db: Db, user: UserId, p: ProductId, name: string, phone: Product, cart: seq<CartEntry>)
    requires name == "Phone" && phone == Product(name, 500099, 100, Electronics)
    requires db.catalog == map[p := phone] && cart == [CartEntry(name, 2)]
    ensures UnitPricedPlaceSpec(db, user, cart)
            == (Created(db.nextId),
                Db(map[p := phone.(stock := 98)],
                   db.orders[db.nextId := Order(user, Pending, map[p := Line(2, 500099)])],
                   db.nextId + 1, db.remoteCalls))
    ensures CalculateTotal(map[p := Line(2, 500099)]) == 1000198
  {
    var pr := PhoneWalk(db.catalog, p, name, phone, cart);
    UnitPricedFinished(db, user, cart, pr);
    PhoneRepriced(db, user, p, phone, pr);
    SingleLineTotal(p, Line(2, 500099));
  }

  /** Committing the phone walk with its line at the unit price. */
  lemma PhoneRepriced(db: Db, user: UserId, p: ProductId, phone: Product, pr: Progress)
    requires phone.priceCents == 500099 && db.catalog == map[p := phone]
    requires pr == Progress(map[p := phone.(stock := 98)], map[p := PricedLine(500099, 2)], 1)
    ensures Committed(db, user, pr.(lines := UnitPriced(db.catalog, pr.lines)))
            == Db(map[p := phone.(stock := 98)],
                  db.orders[db.nextId := Order(user, Pending, map[p := Line(2, 500099)])],
                  db.nextId + 1, db.remoteCalls)
  {
    var fixed := UnitPriced(db.catalog, pr.lines);
    assert fixed.Keys == {p} && fixed[p] == Line(2, 500099);
    assert fixed == map[p := Line(2, 500099)];
  }

  /** The phone cart validates unchanged and its walk reserves two phones. */
  lemma PhoneWalk(catalog: Catalog, p: ProductId, name: string, phone: Product, cart: seq<CartEntry>)
    returns (pr: Progress)
    requires name == "Phone" && phone == Product(name, 500099, 100, Electronics)
    requires catalog == map[p := phone] && cart == [CartEntry(name, 2)]
    ensures ValidateCart(cart) == Some(cart) && CartValidated(cart)
    ensures pr == Progress(map[p := phone.(stock := 98)], map[p := PricedLine(500099, 2)], 1)
    ensures Walk(Progress(catalog, map[], 0), cart) == Finished(pr) && pr.count > 0
  {
    ValidateOneEntry(cart);
    WalkOneAvailable(catalog, p, cart[0]);
    pr := Progress(map[p := phone.(stock := 98)], map[p := PricedLine(500099, 2)], 1);
  }

  /** A valid cart whose walk finishes with a line: the create view with
      lines at the unit price creates the order and commits the walk with
      its lines repriced. */
  lemma UnitPricedFinished(db: Db, user: UserId, cart: seq<CartEntry>, pr: Progress)
    requires ValidateCart(cart) == Some(cart) && CartValidated(cart)
    requires Walk(Progress(db.catalog, map[], 0), cart) == Finished(pr) && pr.count > 0
    ensures UnitPricedPlaceSpec(db, user, cart)
            == (Created(db.nextId), Committed(db, user, pr.(lines := UnitPriced(db.catalog, pr.lines))))
  {
    var fixed := pr.(lines := UnitPriced(db.catalog, pr.lines));
    var w := Walk(Progress(db.catalog, map[], 0), cart);
    assert w.Finished? && w.progress == pr;
    assert UnitPricedPlaceSpec(db, user, cart) == (Created(db.nextId), Committed(db, user, fixed));
  }

  /** Ten chairs from a stock of 5: the view answers that the chair is short,
      and (the early return committing the block) a pending order without
      lines is left behind while the stock stays at 5. Rolling the error
      answers back leaves the tables as they were. */
  lemma ShortStockKeepsEmptyOrder(db: Db, user: UserId, p: ProductId, name: string, chair: Product, cart: seq<CartEntry>)
    requires name == "Chair" && chair == Product(name, 1500_00, 5, Home)
    requires db.catalog == map[p := chair] && cart == [CartEntry(name, 10)]
    ensures PlaceOrderSpec(db, user, cart)
            == (InsufficientStock(name),
                db.(orders := db.orders[db.nextId := Order(user, Pending, map[])], nextId := db.nextId + 1))
    ensures AllOrNothingPlaceSpec(db, user, cart) == (InsufficientStock(name), db)
  {
    ValidateOneEntry(cart);
    PlaceOneShort(db, user, p, cart[0]);
  }

  /** A cart whose only name matches no product: the view answers that the
      order is empty, and a pending order without lines is left behind.
      Rolling the error answers back leaves the tables as they were. */
  lemma UnknownNameKeepsEmptyOrder(db: Db, user: UserId, name: string, cart: seq<CartEntry>)
    requires name == "Nonexistent" && cart == [CartEntry(name, 1)]
    requires forall q :: q in db.catalog ==> !SameFolded(db.catalog[q].name, name)
    ensures PlaceOrderSpec(db, user, cart)
            == (EmptyOrder, db.(orders := db.orders[db.nextId := Order(user, Pending, map[])], nextId := db.nextId + 1))
    ensures AllOrNothingPlaceSpec(db, user, cart) == (EmptyOrder, db)
  {
    ValidateOneEntry(cart);
    PlaceOneUnknown(db, user, cart[0]);
  }

  /** Deleting a pending order holding two phones and one chair puts two
      phones and one chair back and removes the order. */
  lemma DeletePendingOrder(db: Db, id: OrderId, phone: ProductId, chair: ProductId)
    requires phone != chair && phone in db.catalog && chair in db.catalog
    requires id in db.orders && db.orders[id].status == Pending
    requires db.orders[id].lines == map[phone := Line(2, 1000198), chair := Line(1, 1500_00)]
    ensures var (r, after) := DeleteOrderSpec(db, id);
      && r == Deleted
      && after.catalog[phone].stock == db.catalog[phone].stock + 2
      && after.catalog[chair].stock == db.catalog[chair].stock + 1
      && after.orders == db.orders - {id}
  {
  }

  /** Deleting a shipped order is refused and changes nothing. */
  lemma DeleteShippedOrder(db: Db, id: OrderId)
    requires id in db.orders && db.orders[id].status == Shipped
    ensures DeleteOrderSpec(db, id) == (Refused, db)
  {
  }
}
