/** The inventory properties of the order views: what the walk over a cart
    does to the catalog and the lines, what placing an order leaves behind,
    and how deleting an order undoes it. */
module OrdersInventory {
  import opened Wrappers
  import opened Text
  import opened ProductsModels
  import opened OrdersModels
  import opened OrdersSerializers
  import opened OrdersSpec

  // ---------------------------------------------------------------------------
  // The walk over the cart

  /** `after` is `before` with more lines reserved: the products are the same
      apart from their stock, every unit is still either in stock or held by a
      line, the earlier lines are kept, each new line holds a positive
      quantity priced at the product's unit price, and the counter went up by
      one per new line. */
  ghost predicate Reserved(before: Progress, after: Progress)
  {
    && SameProducts(before.catalog, after.catalog)
    && (forall p :: p in before.catalog ==>
          after.catalog[p].stock + Held(after.lines, p) == before.catalog[p].stock + Held(before.lines, p))
    && (forall p :: p in before.lines ==> p in after.lines && after.lines[p] == before.lines[p])
    && (forall p :: p in after.lines && p !in before.lines ==>
          && p in before.catalog
          && after.lines[p].quantity >= 1
          && after.lines[p] == PricedLine(before.catalog[p].priceCents, after.lines[p].quantity))
    && after.count + |before.lines| == before.count + |after.lines|
  }

  lemma ReservedTransitive(a: Progress, b: Progress, c: Progress)
    requires Reserved(a, b) && Reserved(b, c)
    ensures Reserved(a, c)
  {
    forall p | p in c.lines && p !in a.lines
      ensures && p in a.catalog
              && c.lines[p].quantity >= 1
              && c.lines[p] == PricedLine(a.catalog[p].priceCents, c.lines[p].quantity)
    {
      if p in b.lines {
        assert c.lines[p] == b.lines[p];
      } else {
        assert b.catalog[p].priceCents == a.catalog[p].priceCents;
      }
    }
  }

  /** One pass of the loop body either leaves everything as it was (the name
      matched no product), or reserves exactly the requested quantity of the
      one product the name matches, which had at least that much in stock. */
  lemma StepReserves(pr: Progress, e: CartEntry)
    requires e.quantity >= 1
    ensures Step(pr, e) == Continue(pr) <==> Matches(pr.catalog, e.productName) == {}
    ensures Step(pr, e).Continue? && Step(pr, e) != Continue(pr) ==>
              exists p :: && Matches(pr.catalog, e.productName) == {p}
                          && p !in pr.lines
                          && pr.catalog[p].stock >= e.quantity
                          && Step(pr, e).progress.lines == pr.lines[p := PricedLine(pr.catalog[p].priceCents, e.quantity)]
                          && Step(pr, e).progress.catalog[p].stock == pr.catalog[p].stock - e.quantity
    ensures Step(pr, e).Continue? ==> Reserved(pr, Step(pr, e).progress)
  {
    match Resolve(pr.catalog, e.productName)
    case NoMatch =>
    case Ambiguous =>
    case Found(p) =>
      if pr.catalog[p].stock >= e.quantity && p !in pr.lines {
        var after := Step(pr, e).progress;
        assert after.lines != pr.lines by {
          assert p in after.lines;
        }
        assert forall q :: q in pr.catalog && q != p ==> Held(after.lines, q) == Held(pr.lines, q);
      }
  }

  /** Whatever the cart, the walk only reserves: when it finishes or stops on
      short stock, its progress is `Reserved` from where it started. In
      particular no stock goes below zero and no unit is lost or made up. */
  lemma {:induction false} WalkReserves(pr: Progress, cart: seq<CartEntry>)
    requires CartValidated(cart)
    ensures !Walk(pr, cart).RolledBack? ==> Reserved(pr, Walk(pr, cart).progress)
    decreases |cart|
  {
    if cart != [] {
      ValidatedTail(cart);
      StepReserves(pr, cart[0]);
      match Step(pr, cart[0])
      case Continue(after) =>
        WalkReserves(after, cart[1..]);
        if !Walk(pr, cart).RolledBack? {
          ReservedTransitive(pr, after, Walk(pr, cart).progress);
        }
      case Short(_) =>
        assert Walk(pr, cart).progress == pr;
      case Broken =>
    }
  }

  /** When the walk stops on short stock, the entries after the one that
      stopped it are not looked at: the state is the one the walk had after
      the entries before it, and that entry's product (the one its name
      matches) has fewer units than it asks for. */
  lemma {:induction false} WalkStopsAtShortEntry(pr: Progress, cart: seq<CartEntry>)
    requires CartValidated(cart)
    requires Walk(pr, cart).OutOfStock?
    ensures exists k :: && 0 <= k < |cart|
                        && Walk(pr, cart[..k]) == Finished(Walk(pr, cart).progress)
                        && Step(Walk(pr, cart).progress, cart[k]) == Short(Walk(pr, cart).productName)
    decreases |cart|
  {
    ValidatedTail(cart);
    match Step(pr, cart[0])
    case Short(_) =>
      assert cart[..0] == [];
    case Continue(after) =>
      var rest := cart[1..];
      WalkStopsAtShortEntry(after, rest);
      var k :| && 0 <= k < |rest|
               && Walk(after, rest[..k]) == Finished(Walk(after, rest).progress)
               && Step(Walk(after, rest).progress, rest[k]) == Short(Walk(after, rest).productName);
      WalkPrefixTail(pr, cart, after, k);
      assert rest[k] == cart[k + 1];
    case Broken =>
  }

  /** When the first entry lets the walk go on, walking a prefix of the cart
      is walking the matching prefix of the rest from the new progress. */
  lemma WalkPrefixTail(pr: Progress, cart: seq<CartEntry>, after: Progress, k: nat)
    requires CartValidated(cart) && k < |cart| - 1 && Step(pr, cart[0]) == Continue(after)
    ensures CartValidated(cart[1..]) && CartValidated(cart[..k + 1])
    ensures Walk(pr, cart[..k + 1]) == Walk(after, cart[1..][..k])
  {
    ValidatedTail(cart);
    var prefix := cart[..k + 1];
    assert CartValidated(prefix) by {
      forall i | 0 <= i < |prefix|
        ensures prefix[i].productName != [] && prefix[i].quantity >= 1
      {
        assert prefix[i] == cart[i];
      }
    }
    assert prefix[0] == cart[0] && prefix[1..] == cart[1..][..k];
  }

  /** A step that stops the walk names the product the entry's name matches. */
  lemma ShortNamesTheProduct(pr: Progress, e: CartEntry)
    requires e.quantity >= 1 && Step(pr, e).Short?
    ensures exists p :: && Matches(pr.catalog, e.productName) == {p}
                        && pr.catalog[p].stock < e.quantity
                        && Step(pr, e).productName == pr.catalog[p].name
  {
    var p := Resolve(pr.catalog, e.productName).id;
    assert Matches(pr.catalog, e.productName) == {p};
  }

  // ---------------------------------------------------------------------------
  // Entries whose name matches no product

  /** The entries of `cart` whose name matches some product of `catalog`. */
  function Known(catalog: Catalog, cart: seq<CartEntry>): (known: seq<CartEntry>)
    ensures |known| <= |cart|
    ensures forall e :: e in known ==> e in cart && Matches(catalog, e.productName) != {}
    ensures forall e :: e in cart && Matches(catalog, e.productName) != {} ==> e in known
  {
    if cart == [] then []
    else
      var rest := Known(catalog, cart[1..]);
      assert forall e :: e in cart[1..] ==> e in cart;
      assert forall e :: e in cart ==> e == cart[0] || e in cart[1..];
      if Matches(catalog, cart[0].productName) == {} then rest else [cart[0]] + rest
  }

  /** A validated cart keeps its shape once the unknown entries are dropped. */
  lemma KnownValidated(catalog: Catalog, cart: seq<CartEntry>)
    requires CartValidated(cart)
    ensures CartValidated(Known(catalog, cart))
  {
    var known := Known(catalog, cart);
    forall i | 0 <= i < |known|
      ensures known[i].productName != [] && known[i].quantity >= 1
    {
      assert known[i] in cart;
    }
  }

  /** Which entries are unknown does not depend on stock. */
  lemma {:induction false} KnownIgnoresStock(c: Catalog, d: Catalog, cart: seq<CartEntry>)
    requires SameProducts(c, d)
    ensures Known(c, cart) == Known(d, cart)
    decreases |cart|
  {
    if cart != [] {
      assert Matches(c, cart[0].productName) == Matches(d, cart[0].productName);
      KnownIgnoresStock(c, d, cart[1..]);
    }
  }

  /** Dropping every entry whose name matches no product does not change
      what the walk does: unknown entries are skipped without a trace. */
  lemma {:induction false} WalkIgnoresUnknown(pr: Progress, cart: seq<CartEntry>)
    requires CartValidated(cart)
    ensures CartValidated(Known(pr.catalog, cart))
    ensures Walk(pr, cart) == Walk(pr, Known(pr.catalog, cart))
    decreases |cart|
  {
    KnownValidated(pr.catalog, cart);
    if cart != [] {
      var rest := cart[1..];
      assert CartValidated(rest) by {
        forall i | 0 <= i < |rest|
          ensures rest[i].productName != [] && rest[i].quantity >= 1
        {
          assert rest[i] == cart[i + 1];
        }
      }
      var known := Known(pr.catalog, cart);
      if Matches(pr.catalog, cart[0].productName) == {} {
        WalkIgnoresUnknown(pr, rest);
      } else {
        assert known[0] == cart[0] && known[1..] == Known(pr.catalog, rest);
        StepReserves(pr, cart[0]);
        match Step(pr, cart[0])
        case Continue(after) =>
          WalkIgnoresUnknown(after, rest);
          KnownIgnoresStock(pr.catalog, after.catalog, rest);
        case Short(_) =>
        case Broken =>
      }
    }
  }

  // ---------------------------------------------------------------------------
  // Placing an order

  /** `after` is `db` with one more order, the pending order of `user` under
      the next key, whose lines were reserved from `db`'s catalog; nothing
      else changed. */
  ghost predicate PlacedFrom(db: Db, user: UserId, after: Db)
  {
    && db.nextId !in db.orders
    && after.nextId == db.nextId + 1
    && after.remoteCalls == db.remoteCalls
    && after.orders.Keys == db.orders.Keys + {db.nextId}
    && (forall id :: id in db.orders ==> after.orders[id] == db.orders[id])
    && after.orders[db.nextId].user == user
    && after.orders[db.nextId].status == Pending
    && Reserved(Progress(db.catalog, map[], 0), Progress(after.catalog, after.orders[db.nextId].lines, |after.orders[db.nextId].lines|))
  }

  /** The committed state of the create view is `PlacedFrom` the state before. */
  lemma CommittedIsPlaced(db: Db, user: UserId, pr: Progress)
    requires db.nextId !in db.orders
    requires Reserved(Progress(db.catalog, map[], 0), pr)
    ensures PlacedFrom(db, user, Committed(db, user, pr))
  {
    var after := Committed(db, user, pr);
    assert Progress(after.catalog, after.orders[db.nextId].lines, |after.orders[db.nextId].lines|) == pr;
  }

  /** A walk that reserved nothing left the catalog as it was. */
  lemma NothingReserved(catalog: Catalog, pr: Progress)
    requires Reserved(Progress(catalog, map[], 0), pr) && pr.count == 0
    ensures pr.lines == map[] && pr.catalog == catalog
  {
    assert |pr.lines| == 0;
    forall p | p in catalog
      ensures pr.catalog[p] == catalog[p]
    {
      assert Held(map[], p) == 0;
    }
  }

  /** What the create view leaves behind, outcome by outcome:
      an invalid cart and a rolled-back transaction change nothing; every
      other outcome commits the new pending order with reserved lines (the
      order row persists even when the view answers with an error); the
      order is created exactly when it has a line, and an order without
      lines leaves the catalog as it was. */
  lemma PlaceOrderOutcome(db: Db, user: UserId, cart: seq<CartEntry>)
    requires DbValid(db)
    ensures var (r, after) := PlaceOrderSpec(db, user, cart);
      && (r == InvalidData <==> ValidateCart(cart).None?)
      && (r == InvalidData || r == Aborted ==> after == db)
      && (r != InvalidData && r != Aborted ==> PlacedFrom(db, user, after))
      && (r.Created? ==> r.id == db.nextId && after.orders[db.nextId].lines != map[])
      && (r == EmptyOrder ==> after.orders[db.nextId].lines == map[] && after.catalog == db.catalog)
  {
    if ValidateCart(cart).Some? {
      var entries := ValidateCart(cart).value;
      var start := Progress(db.catalog, map[], 0);
      WalkReserves(start, entries);
      var end := Walk(start, entries);
      if !end.RolledBack? {
        assert db.nextId !in db.orders;
        CommittedIsPlaced(db, user, end.progress);
        if end.Finished? && end.progress.count == 0 {
          NothingReserved(db.catalog, end.progress);
        }
      }
    }
  }

  /** With the error answers rolling back, a request either creates an
      order that holds at least one line, or changes nothing at all. */
  lemma AllOrNothingOutcome(db: Db, user: UserId, cart: seq<CartEntry>)
    requires DbValid(db)
    ensures var (r, after) := AllOrNothingPlaceSpec(db, user, cart);
      && (r.Created? ==> r.id == db.nextId && PlacedFrom(db, user, after) && after.orders[db.nextId].lines != map[])
      && (!r.Created? ==> after == db)
      && DbValid(after)
  {
    PlaceOrderOutcome(db, user, cart);
    var (r, after) := AllOrNothingPlaceSpec(db, user, cart);
    if r.Created? {
      PlacedKeepsValid(db, user, after);
    }
  }

  /** No oversell: every line of a placed order holds at most what the
      product had in stock before, the stock left is what it had minus that
      quantity, and the line's price is the unit price times the quantity. */
  lemma PlacedNoOversell(db: Db, user: UserId, after: Db)
    requires PlacedFrom(db, user, after)
    ensures forall p :: p in after.orders[db.nextId].lines ==>
              && p in db.catalog
              && 1 <= after.orders[db.nextId].lines[p].quantity <= db.catalog[p].stock
              && after.catalog[p].stock == db.catalog[p].stock - after.orders[db.nextId].lines[p].quantity
              && after.orders[db.nextId].lines[p].priceCents
                   == db.catalog[p].priceCents * after.orders[db.nextId].lines[p].quantity
  {
    var lines := after.orders[db.nextId].lines;
    forall p | p in lines
      ensures && p in db.catalog
              && 1 <= lines[p].quantity <= db.catalog[p].stock
              && after.catalog[p].stock == db.catalog[p].stock - lines[p].quantity
              && lines[p].priceCents == db.catalog[p].priceCents * lines[p].quantity
    {
      assert Held(lines, p) == lines[p].quantity;
      assert Held(map[], p) == 0;
    }
  }

  /** Placing keeps the tables consistent. */
  lemma PlacedKeepsValid(db: Db, user: UserId, after: Db)
    requires DbValid(db) && PlacedFrom(db, user, after)
    ensures DbValid(after)
  {
    forall id, p | id in after.orders && p in after.orders[id].lines
      ensures p in after.catalog
    {
      if id != db.nextId {
        assert after.orders[id] == db.orders[id];
      }
    }
  }

  /** The product's unit price times the square of the quantity: what
      `calculate_total` adds up for a line the create view wrote, since that
      line's `price` already is unit price times quantity. */
  function UnitTimesSquare(catalog: Catalog): (ProductId, Line) -> int
  {
    (p: ProductId, l: Line) => (if p in catalog then catalog[p].priceCents else 0) * l.quantity * l.quantity
  }

  /** Lines priced at unit price times quantity total the sum of unit price
      times quantity squared. */
  lemma PricedLinesTotal(catalog: Catalog, lines: Lines)
    requires forall p :: p in lines ==>
               p in catalog && lines[p].priceCents == catalog[p].priceCents * lines[p].quantity
    ensures CalculateTotal(lines) == LinesSum(lines, UnitTimesSquare(catalog))
  {
    forall p | p in lines
      ensures LineTotal(p, lines[p]) == UnitTimesSquare(catalog)(p, lines[p])
    {
      var u, q := catalog[p].priceCents, lines[p].quantity;
      assert (u * q) * q == u * q * q;
    }
    LinesSumSameTerms(lines, LineTotal, UnitTimesSquare(catalog));
  }

  /** The total of an order the create view wrote counts each quantity twice:
      it is the sum of unit price times quantity squared. */
  lemma PlacedTotalSquaresQuantity(db: Db, user: UserId, after: Db)
    requires PlacedFrom(db, user, after)
    ensures TotalPrice(after.orders[db.nextId]) == LinesSum(after.orders[db.nextId].lines, UnitTimesSquare(db.catalog))
  {
    PlacedNoOversell(db, user, after);
    PricedLinesTotal(db.catalog, after.orders[db.nextId].lines);
  }

  /** The product's unit price times the quantity: what a line of the create
      view is meant to cost. */
  function UnitTimesQuantity(catalog: Catalog): (ProductId, Line) -> int
  {
    (p: ProductId, l: Line) => (if p in catalog then catalog[p].priceCents else 0) * l.quantity
  }

  /** Lines at unit prices total the sum of unit price times quantity: each
      quantity is counted once. */
  lemma UnitPricedTotal(catalog: Catalog, lines: Lines)
    requires lines.Keys <= catalog.Keys
    ensures CalculateTotal(UnitPriced(catalog, lines)) == LinesSum(UnitPriced(catalog, lines), UnitTimesQuantity(catalog))
  {
    var priced := UnitPriced(catalog, lines);
    forall p | p in priced
      ensures LineTotal(p, priced[p]) == UnitTimesQuantity(catalog)(p, priced[p])
    {
    }
    LinesSumSameTerms(priced, LineTotal, UnitTimesQuantity(catalog));
  }

  /** The tables the create view with lines at the unit price commits: the
      as-written commit with the new order's lines repriced. When the walk
      kept the products and wrote lines only for products, they are
      consistent, every line holds its product's unit price, and the order
      totals the sum of unit price times quantity. */
  lemma UnitPricedCommitted(db: Db, user: UserId, pr: Progress)
    requires DbValid(db) && pr.catalog.Keys == db.catalog.Keys && pr.lines.Keys <= db.catalog.Keys
    ensures var after := Committed(db, user, pr.(lines := UnitPriced(db.catalog, pr.lines)));
      var written := Committed(db, user, pr);
      && after == written.(orders := written.orders[db.nextId := written.orders[db.nextId].(
                             lines := UnitPriced(db.catalog, written.orders[db.nextId].lines))])
      && DbValid(after)
      && (forall p :: p in after.orders[db.nextId].lines ==>
            p in db.catalog && after.orders[db.nextId].lines[p].priceCents == db.catalog[p].priceCents)
      && TotalPrice(after.orders[db.nextId]) == LinesSum(after.orders[db.nextId].lines, UnitTimesQuantity(db.catalog))
  {
    var lines := UnitPriced(db.catalog, pr.lines);
    var after := Committed(db, user, pr.(lines := lines));
    var written := Committed(db, user, pr);
    assert after.orders == written.orders[db.nextId := Order(user, Pending, lines)];
    CommittedValid(db, user, pr.(lines := lines));
    UnitPricedPrices(db.catalog, pr.lines);
    UnitPricedTotal(db.catalog, pr.lines);
  }

  /** Committing a walk that kept the products and wrote lines only for
      products keeps the tables consistent. */
  lemma CommittedValid(db: Db, user: UserId, pr: Progress)
    requires DbValid(db) && pr.catalog.Keys == db.catalog.Keys && pr.lines.Keys <= db.catalog.Keys
    ensures DbValid(Committed(db, user, pr))
  {
    var after := Committed(db, user, pr);
    forall id, p | id in after.orders && p in after.orders[id].lines
      ensures p in after.catalog
    {
      if id != db.nextId {
        assert after.orders[id] == db.orders[id];
      }
    }
  }

  /** Every line at unit prices holds its product's unit price. */
  lemma UnitPricedPrices(catalog: Catalog, lines: Lines)
    requires lines.Keys <= catalog.Keys
    ensures forall p :: p in UnitPriced(catalog, lines) ==>
              p in catalog && UnitPriced(catalog, lines)[p].priceCents == catalog[p].priceCents
  {
    var priced := UnitPriced(catalog, lines);
    forall p | p in priced
      ensures p in catalog && priced[p].priceCents == catalog[p].priceCents
    {
      assert priced[p] == UnitLine(catalog[p].priceCents, lines[p].quantity);
    }
  }

  /** The create view with lines written at the unit price answers as the
      view does, and commits the same tables except that the new order's
      lines hold the unit prices; the tables stay consistent, and the order's
      `total_price` is the sum of unit price times quantity. */
  lemma UnitPricedPlaceOutcome(db: Db, user: UserId, cart: seq<CartEntry>)
    requires DbValid(db)
    ensures var (r, after) := UnitPricedPlaceSpec(db, user, cart);
      var (written, tables) := PlaceOrderSpec(db, user, cart);
      && r == written
      && (r == InvalidData || r == Aborted ==> after == db)
      && (r != InvalidData && r != Aborted ==>
            && after == tables.(orders := tables.orders[db.nextId := tables.orders[db.nextId].(
                                  lines := UnitPriced(db.catalog, tables.orders[db.nextId].lines))])
            && DbValid(after)
            && (forall p :: p in after.orders[db.nextId].lines ==>
                  p in db.catalog && after.orders[db.nextId].lines[p].priceCents == db.catalog[p].priceCents)
            && TotalPrice(after.orders[db.nextId]) == LinesSum(after.orders[db.nextId].lines, UnitTimesQuantity(db.catalog)))
  {
    if ValidateCart(cart).Some? {
      var entries := ValidateCart(cart).value;
      var start := Progress(db.catalog, map[], 0);
      var end := Walk(start, entries);
      if !end.RolledBack? {
        WalkReserves(start, entries);
        var pr := end.progress;
        var fixed := pr.(lines := UnitPriced(db.catalog, pr.lines));
        var r := if end.OutOfStock? then InsufficientStock(end.productName)
                 else if pr.count == 0 then EmptyOrder else Created(db.nextId);
        assert PlaceOrderSpec(db, user, cart) == (r, Committed(db, user, pr));
        assert UnitPricedPlaceSpec(db, user, cart) == (r, Committed(db, user, fixed));
        assert pr.lines.Keys <= db.catalog.Keys;
        UnitPricedCommitted(db, user, pr);
      }
    }
  }

  // ---------------------------------------------------------------------------
  // Deleting an order

  /** Putting back what reserved lines hold gives the catalog from before
      the reservation. */
  lemma RestockUndoesReserve(before: Catalog, after: Catalog, lines: Lines)
    requires Reserved(Progress(before, map[], 0), Progress(after, lines, |lines|))
    ensures Restock(after, lines) == before
  {
    var restored := Restock(after, lines);
    assert restored.Keys == before.Keys;
    forall p | p in before
      ensures restored[p] == before[p]
    {
      assert Held(map[], p) == 0;
      assert after[p] == before[p].(stock := after[p].stock);
    }
  }

  /** Conservation: deleting the order a create request left behind gives
      back exactly the tables from before the request; only the key counter
      moved on. */
  lemma DeleteUndoesPlace(db: Db, user: UserId, after: Db)
    requires PlacedFrom(db, user, after)
    ensures DeleteOrderSpec(after, db.nextId) == (Deleted, db.(nextId := db.nextId + 1))
  {
    var id := db.nextId;
    var lines := after.orders[id].lines;
    assert id in after.orders && !Irreversible(after.orders[id].status);
    RestockUndoesReserve(db.catalog, after.catalog, lines);
    assert after.orders - {id} == db.orders by {
      assert (after.orders - {id}).Keys == db.orders.Keys;
    }
  }

  /** The create view, whatever it answers, never oversells, keeps the tables
      consistent, writes totals that square the quantity, and leaves nothing
      that deleting its order does not undo. */
  lemma PlaceOrderInventory(db: Db, user: UserId, cart: seq<CartEntry>)
    requires DbValid(db)
    ensures var (r, after) := PlaceOrderSpec(db, user, cart);
      && DbValid(after)
      && (r != InvalidData && r != Aborted ==>
            && (forall p :: p in after.orders[db.nextId].lines ==>
                  && p in db.catalog
                  && 1 <= after.orders[db.nextId].lines[p].quantity <= db.catalog[p].stock
                  && after.catalog[p].stock == db.catalog[p].stock - after.orders[db.nextId].lines[p].quantity)
            && TotalPrice(after.orders[db.nextId]) == LinesSum(after.orders[db.nextId].lines, UnitTimesSquare(db.catalog))
            && DeleteOrderSpec(after, db.nextId) == (Deleted, db.(nextId := db.nextId + 1)))
  {
    PlaceOrderOutcome(db, user, cart);
    var (r, after) := PlaceOrderSpec(db, user, cart);
    if r != InvalidData && r != Aborted {
      PlacedNoOversell(db, user, after);
      PlacedKeepsValid(db, user, after);
      PlacedTotalSquaresQuantity(db, user, after);
      DeleteUndoesPlace(db, user, after);
    }
  }

  /** Deleting keeps the tables consistent. */
  lemma DeleteOrderKeepsValid(db: Db, id: OrderId)
    requires DbValid(db)
    ensures DbValid(DeleteOrderSpec(db, id).1)
  {
  }

  /** Once deleted, an order cannot be deleted again. */
  lemma DeleteOrderTwice(db: Db, id: OrderId)
    requires DeleteOrderSpec(db, id).0 == Deleted
    ensures DeleteOrderSpec(DeleteOrderSpec(db, id).1, id) == (NotFound, DeleteOrderSpec(db, id).1)
  {
  }

  // ---------------------------------------------------------------------------
  // Changing the status

  /** A status update keeps the tables consistent. */
  lemma UpdateStatusKeepsValid(db: Db, id: OrderId, requested: Option<string>)
    requires DbValid(db)
    ensures DbValid(UpdateStatusSpec(db, id, requested).1)
  {
  }
}
