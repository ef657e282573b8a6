/** The input checks of `orders/serializers.py`: the cart entries an order is
    placed with, and the minimum-total validator. */
module OrdersSerializers {
  import opened Wrappers
  import opened Text

  /** One `OrderItemCreateSerializer` entry as the client sends it. */
  datatype CartEntry = CartEntry(productName: string, quantity: int)

  /** `validate_quantity` (with the field's `min_value=1`): only a positive
      quantity passes, and it passes unchanged. */
  function ValidateQuantity(quantity: int): (r: Result<int, string>)
    ensures r.Ok? <==> quantity >= 1
    ensures r.Ok? ==> r.value == quantity
  {
    if quantity <= 0 then Err("Количество товара должно быть положительным!") else Ok(quantity)
  }

  /** An entry the serializer accepts: a name that is not blank once stripped
      and holds no NUL character (a `CharField` trims, refuses blanks and
      prohibits null characters) and a positive quantity. */
  predicate EntryValid(e: CartEntry)
  {
    Strip(e.productName) != [] && '\0' !in Strip(e.productName) && ValidateQuantity(e.quantity).Ok?
  }

  /** A cart after validation: stripped, non-empty names and positive quantities. */
  predicate CartValidated(cart: seq<CartEntry>)
  {
    forall i :: 0 <= i < |cart| ==> cart[i].productName != [] && cart[i].quantity >= 1
  }

  /** The `products` list of `OrderSerializer`: the whole cart is refused if
      any entry is; otherwise each entry comes back with its name stripped and
      its quantity unchanged, in the same order. An empty cart is accepted. */
  function ValidateCart(cart: seq<CartEntry>): (r: Option<seq<CartEntry>>)
    ensures r.Some? <==> forall i :: 0 <= i < |cart| ==> EntryValid(cart[i])
    ensures r.Some? ==> |r.value| == |cart| && CartValidated(r.value)
    ensures r.Some? ==> forall i :: 0 <= i < |cart| ==>
              r.value[i] == CartEntry(Strip(cart[i].productName), cart[i].quantity)
  {
    if forall i :: 0 <= i < |cart| ==> EntryValid(cart[i]) then
      Some(seq(|cart|, i requires 0 <= i < |cart| => CartEntry(Strip(cart[i].productName), cart[i].quantity)))
    else
      None
  }

  /** The minimum order total, 1000 in the currency's units. */
  const MinTotalCents: int := 1000_00

  /** `validate_total_price`: a total below 1000 is refused, any other total
      passes unchanged. */
  function ValidateTotalPrice(totalCents: int): (r: Result<int, string>)
    ensures r.Ok? <==> totalCents >= MinTotalCents
    ensures r.Ok? ==> r.value == totalCents
  {
    if totalCents < MinTotalCents then Err("Минимальная сумма заказа 1000!") else Ok(totalCents)
  }
}
