/** The order records (`orders/models.py`): an order owned by a user, with a
    status and its lines, one line per product, each line holding a quantity
    and a price in integer cents. */
module OrdersModels {
  import opened Wrappers
  import opened Text
  import opened ProductsModels

  /** Primary key of a user row. */
  type UserId = nat

  /** Primary key of an order row. */
  type OrderId = nat

  datatype Status = Pending | Processing | Shipped | Delivered | Cancelled

  /** The status a new order gets when none is given. */
  const DefaultStatus: Status := Pending

  /** The value stored in the `status` column for each choice. */
  function StatusCode(s: Status): string
  {
    match s
    case Pending => "pending"
    case Processing => "processing"
    case Shipped => "shipped"
    case Delivered => "delivered"
    case Cancelled => "cancelled"
  }

  /** Reads a status value; anything outside the five choices is refused,
      as the `ChoiceField` of a serializer refuses it. */
  function ParseStatus(s: string): (r: Option<Status>)
    ensures r.Some? ==> StatusCode(r.value) == s
  {
    if s == "pending" then Some(Pending)
    else if s == "processing" then Some(Processing)
    else if s == "shipped" then Some(Shipped)
    else if s == "delivered" then Some(Delivered)
    else if s == "cancelled" then Some(Cancelled)
    else None
  }

  lemma StatusRoundTrip(s: Status)
    ensures ParseStatus(StatusCode(s)) == Some(s)
  {
  }

  /** An `OrderItem` row without its two foreign keys: `quantity` is a
      `PositiveIntegerField` (so 0 is allowed) and `price` a two-place amount. */
  datatype Line = Line(quantity: nat, priceCents: nat)

  /** The line the create view writes: the quantity and, as its price, the
      product's unit price times that quantity. `calculate_total` then
      multiplies that price by the quantity once more. */
  function PricedLine(unitCents: nat, quantity: nat): (l: Line)
    ensures l.quantity == quantity && l.priceCents == unitCents * quantity
    ensures l.priceCents * l.quantity == unitCents * quantity * quantity
    ensures quantity >= 1 ==> l.priceCents >= unitCents
  {
    var l := Line(quantity, unitCents * quantity);
    assert (unitCents * quantity) * quantity == unitCents * quantity * quantity;
    l
  }

  /** The line as the model's docstrings and the tests read it: `price` is the
      product's unit price, so that `price * quantity` is what the units cost. */
  function UnitLine(unitCents: nat, quantity: nat): (l: Line)
    ensures l.quantity == quantity && l.priceCents == unitCents
    ensures l.priceCents * l.quantity == unitCents * quantity
  {
    Line(quantity, unitCents)
  }

  /** A line's quantity when none is given. */
  const DefaultQuantity: nat := 1

  /** An order with its lines keyed by product: `unique_together =
      ('order', 'product')` is the reason the lines form a map, and since the
      lines live inside the order, deleting the order deletes them. */
  datatype Order = Order(user: UserId, status: Status, lines: map<ProductId, Line>)

  // ---------------------------------------------------------------------------
  // Totals

  /** The sum of `f` over the lines, in no particular order. */
  ghost function LinesSum(lines: map<ProductId, Line>, f: (ProductId, Line) -> int): int
    decreases |lines|
  {
    if lines == map[] then 0
    else
      var p :| p in lines;
      f(p, lines[p]) + LinesSum(lines - {p}, f)
  }

  /** Any line can be taken out of the sum first. */
  lemma {:induction false} LinesSumRemove(lines: map<ProductId, Line>, f: (ProductId, Line) -> int, p: ProductId)
    requires p in lines
    ensures LinesSum(lines, f) == f(p, lines[p]) + LinesSum(lines - {p}, f)
    decreases |lines|
  {
    var q :| q in lines && LinesSum(lines, f) == f(q, lines[q]) + LinesSum(lines - {q}, f);
    if q != p {
      var rest := lines - {p} - {q};
      assert lines - {q} - {p} == rest;
      LinesSumRemove(lines - {q}, f, p);
      LinesSumRemove(lines - {p}, f, q);
    }
  }

  /** Two sums agree when their terms agree line by line. */
  lemma {:induction false} LinesSumSameTerms(lines: map<ProductId, Line>, f: (ProductId, Line) -> int, g: (ProductId, Line) -> int)
    requires forall p :: p in lines ==> f(p, lines[p]) == g(p, lines[p])
    ensures LinesSum(lines, f) == LinesSum(lines, g)
    decreases |lines|
  {
    if lines != map[] {
      var p :| p in lines;
      LinesSumRemove(lines, f, p);
      LinesSumRemove(lines, g, p);
      LinesSumSameTerms(lines - {p}, f, g);
    }
  }

  /** A sum of non-negative terms is non-negative. */
  lemma {:induction false} LinesSumNonNegative(lines: map<ProductId, Line>, f: (ProductId, Line) -> int)
    requires forall p :: p in lines ==> f(p, lines[p]) >= 0
    ensures LinesSum(lines, f) >= 0
    decreases |lines|
  {
    if lines != map[] {
      var p :| p in lines;
      LinesSumRemove(lines, f, p);
      LinesSumNonNegative(lines - {p}, f);
    }
  }

  /** `price * quantity` of one line. */
  function LineTotal(p: ProductId, l: Line): int
  {
    l.priceCents * l.quantity
  }

  /** `calculate_total`: the sum of `price * quantity` over the lines, 0 when
      there are none (`total or Decimal('0.00')`). */
  ghost function CalculateTotal(lines: map<ProductId, Line>): (t: int)
    ensures t >= 0
    ensures lines == map[] ==> t == 0
  {
    LinesSumNonNegative(lines, LineTotal);
    LinesSum(lines, LineTotal)
  }

  /** The `total_price` property, which is `calculate_total`. */
  ghost function TotalPrice(o: Order): (t: int)
    ensures t == CalculateTotal(o.lines)
  {
    CalculateTotal(o.lines)
  }

  /** Adding a line for a product the order does not hold yet adds its
      `price * quantity` to the total. */
  lemma TotalAddLine(lines: map<ProductId, Line>, p: ProductId, l: Line)
    requires p !in lines
    ensures CalculateTotal(lines[p := l]) == CalculateTotal(lines) + l.priceCents * l.quantity
  {
    LinesSumRemove(lines[p := l], LineTotal, p);
    assert lines[p := l] - {p} == lines;
  }

  /** One line holding the unit price 5000.99 with quantity 2 totals 10001.98. */
  lemma SingleLineTotal(p: ProductId, l: Line)
    requires l == Line(2, 500099)
    ensures CalculateTotal(map[p := l]) == 1000198
  {
    TotalAddLine(map[], p, l);
  }

  /** `__str__`: `Order #<pk> by <user>`, given the owner's own rendering;
      the digits between `#` and ` by ` read back to the key. */
  function OrderLabel(id: OrderId, owner: string): (s: string)
    ensures |s| >= 12 + |owner|
    ensures s[..7] == "Order #" && s[|s| - |owner|..] == owner
    ensures s[|s| - |owner| - 4..|s| - |owner|] == " by "
    ensures AllDigits(s[7..|s| - |owner| - 4]) && DigitsValue(s[7..|s| - |owner| - 4]) == id
  {
    DecimalStringRoundTrip(id);
    var digits := DecimalString(id);
    var s := "Order #" + digits + " by " + owner;
    assert s[7..|s| - |owner| - 4] == digits;
    s
  }
}
