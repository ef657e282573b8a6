/** `ProductSerializer` (`products/serializers.py`): its two field
    validators, and the whole serializer on a product's writable fields.
    A validator either hands its value back or raises a `ValidationError`,
    modelled as `Err` with the message. */
module ProductsSerializers {
  import opened Wrappers
  import opened Text
  import opened ProductsModels

  /** `validate_price`, on the price in cents: only a positive price passes. */
  function ValidatePrice(cents: int): (r: Result<int, string>)
    ensures r.Ok? <==> cents > 0
    ensures r.Ok? ==> r.value == cents
  {
    if cents <= 0 then Err("Цена должна быть положительной!") else Ok(cents)
  }

  /** `validate_stock`: only a positive stock passes, so 0 cannot be written
      through the serializer although the model column accepts it. */
  function ValidateStock(stock: int): (r: Result<int, string>)
    ensures r.Ok? <==> stock > 0
    ensures r.Ok? ==> r.value == stock
  {
    if stock <= 0 then Err("Количество на складе должно быть положительным!") else Ok(stock)
  }

  /** The writable fields of a product as the client sends them. */
  datatype ProductInput = ProductInput(name: string, priceCents: int, stock: int, category: string)

  /** The fields an error report can name. */
  datatype Field = NameField | PriceField | StockField | CategoryField

  /** The name field a `ModelSerializer` derives from the model's
      `CharField(max_length=255)`: trimmed, not blank, no NUL character, at
      most 255 characters. */
  predicate NameAccepted(name: string)
  {
    var t := Strip(name);
    t != [] && '\0' !in t && |t| <= MaxNameLength
  }

  /** The price field derived from the model's `DecimalField` with its
      minimum of 0.01 (ten digits, two of them decimals), then `validate_price`. */
  predicate PriceAccepted(cents: int)
  {
    MinPriceCents <= cents <= MaxPriceCents && ValidatePrice(cents).Ok?
  }

  /** The stock field derived from the model's `PositiveIntegerField`
      (at least 0), then `validate_stock`. */
  predicate StockAccepted(stock: int)
  {
    stock >= 0 && ValidateStock(stock).Ok?
  }

  /** `{field}` when its check failed, nothing when it passed. */
  function RefusedIf(accepted: bool, field: Field): (bad: set<Field>)
    ensures field in bad <==> !accepted
    ensures bad <= {field}
  {
    if accepted then {} else {field}
  }

  /** The fields of `input` that are refused. */
  function Refused(input: ProductInput): (bad: set<Field>)
    ensures NameField in bad <==> !NameAccepted(input.name)
    ensures PriceField in bad <==> !PriceAccepted(input.priceCents)
    ensures StockField in bad <==> !StockAccepted(input.stock)
    ensures CategoryField in bad <==> ParseCategory(input.category).None?
  {
    var byName := RefusedIf(NameAccepted(input.name), NameField);
    var byPrice := RefusedIf(PriceAccepted(input.priceCents), PriceField);
    var byStock := RefusedIf(StockAccepted(input.stock), StockField);
    var byCategory := RefusedIf(ParseCategory(input.category).Some?, CategoryField);
    byName + byPrice + byStock + byCategory
  }

  /** `is_valid()` on the writable fields: every field is checked and the
      refused ones are reported together; when none is refused the product
      is built from the cleaned values, and it meets the model's field
      constraints with at least one unit in stock. */
  function ValidateProduct(input: ProductInput): (r: Result<Product, set<Field>>)
    ensures r.Err? <==> Refused(input) != {}
    ensures r.Err? ==> r.error == Refused(input)
    ensures r.Ok? ==> FieldsValid(r.value) && IsInStock(r.value)
    ensures r.Ok? ==> && r.value.name == Strip(input.name) && r.value.priceCents == input.priceCents
                      && r.value.stock == input.stock && CategoryCode(r.value.category) == input.category
  {
    var bad := Refused(input);
    if bad == {} then
      assert NameField !in bad && PriceField !in bad && StockField !in bad && CategoryField !in bad;
      Ok(Product(Strip(input.name), input.priceCents, input.stock, ParseCategory(input.category).value))
    else
      Err(bad)
  }
}
