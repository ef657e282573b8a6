/** The catalog record (`products/models.py`): a product with a name, a
    price in integer cents, a stock count and a category. */
module ProductsModels {
  import opened Wrappers
  import opened Text

  /** Primary key of a product row. */
  type ProductId = nat

  datatype Category = Electronics | Clothing | Books | Home | Sport

  /** The value stored in the `category` column for each choice. */
  function CategoryCode(c: Category): string
  {
    match c
    case Electronics => "electronics"
    case Clothing => "clothing"
    case Books => "books"
    case Home => "home"
    case Sport => "sport"
  }

  /** Reads a stored category value; anything outside the five choices is refused. */
  function ParseCategory(s: string): (r: Option<Category>)
    ensures r.Some? ==> CategoryCode(r.value) == s
  {
    if s == "electronics" then Some(Electronics)
    else if s == "clothing" then Some(Clothing)
    else if s == "books" then Some(Books)
    else if s == "home" then Some(Home)
    else if s == "sport" then Some(Sport)
    else None
  }

  lemma CategoryRoundTrip(c: Category)
    ensures ParseCategory(CategoryCode(c)) == Some(c)
  {
  }

  /** A product row. `stock` is a `PositiveIntegerField`, so a `nat`; the
      price is a two-place `Decimal` held as integer cents. */
  datatype Product = Product(name: string, priceCents: nat, stock: nat, category: Category)

  /** `MinValueValidator(Decimal('0.01'))` on the price. */
  const MinPriceCents: nat := 1

  /** `max_digits=10, decimal_places=2`: at most 99999999.99. */
  const MaxPriceCents: nat := 99_999_999_99

  const MaxNameLength: nat := 255

  /** A new product's stock when none is given. */
  const DefaultStock: nat := 0

  /** The field validators of the model: a price of at least 0.01 that fits
      ten digits, and a name of at most 255 characters. */
  predicate FieldsValid(p: Product)
  {
    MinPriceCents <= p.priceCents <= MaxPriceCents && |p.name| <= MaxNameLength
  }

  /** `is_in_stock`. */
  function IsInStock(p: Product): (r: bool)
    ensures r <==> p.stock >= 1
  {
    p.stock > 0
  }

  /** `__str__`: name, stock and price in a fixed Russian template. */
  function Label(p: Product): string
  {
    "Название: " + p.name + ", Количество: " + DecimalString(p.stock)
      + ", Цена: " + CentsString(p.priceCents) + "."
  }

  /** The label is the fixed template around the name, a digit string that
      reads back as the stock, and a price text whose units and two decimals
      read back as the price in cents. */
  lemma LabelReadsBack(p: Product) returns (stockText: string, priceText: string)
    ensures Label(p) == "Название: " + p.name + ", Количество: " + stockText + ", Цена: " + priceText + "."
    ensures AllDigits(stockText) && DigitsValue(stockText) == p.stock
    ensures |priceText| >= 4 && priceText[|priceText| - 3] == '.'
    ensures AllDigits(priceText[..|priceText| - 3]) && AllDigits(priceText[|priceText| - 2..])
    ensures DigitsValue(priceText[..|priceText| - 3]) * 100 + DigitsValue(priceText[|priceText| - 2..]) == p.priceCents
  {
    stockText, priceText := DecimalString(p.stock), CentsString(p.priceCents);
    DecimalStringRoundTrip(p.stock);
    CentsStringRoundTrip(p.priceCents);
  }

  lemma StockText(n: nat)
    requires n == 100
    ensures DecimalString(n) == "100"
  {
    assert DecimalString(n / 100) == "1";
    assert DecimalString(n / 10) == "10";
  }

  lemma PriceText(cents: nat)
    requires cents == 500099
    ensures CentsString(cents) == "5000.99"
  {
    var units := cents / 100;
    assert DecimalString(units / 1000) == "5";
    assert DecimalString(units / 100) == "50";
    assert DecimalString(units / 10) == "500";
    assert DecimalString(units) == "5000";
  }

  /** The rendering of a phone with 100 units in stock at 5000.99. */
  lemma PhoneLabel(p: Product)
    requires p == Product("Phone", 500099, 100, Electronics)
    ensures Label(p) == "Название: Phone, Количество: 100, Цена: 5000.99."
  {
    StockText(p.stock);
    PriceText(p.priceCents);
  }
}
