/** The line-item DTO: parsing from the request, the rounded line total, the array
    handed to the store, and validation. Also the validation errors of both DTOs. */
module OrderItemDtos {
  import opened Common
  import opened Text
  import opened Money

  /** The `\InvalidArgumentException`s thrown by the DTOs' `validate` methods. */
  datatype ValidationError =
    | EmptyCustomerName
    | NoItems
    | NegativeDiscount
    | NegativeTax
    | EmptyProductName
    | QuantityBelowOne
    | NonPositiveUnitPrice
  {
    function Message(): (m: string)
      ensures |m| > 0
    {
      match this
      case EmptyCustomerName => "Nome do cliente é obrigatório."
      case NoItems => "Pedido deve ter pelo menos um item."
      case NegativeDiscount => "Desconto não pode ser negativo."
      case NegativeTax => "Taxa não pode ser negativa."
      case EmptyProductName => "Nome do produto é obrigatório."
      case QuantityBelowOne => "Quantidade deve ser maior ou igual a 1."
      case NonPositiveUnitPrice => "Preço unitário deve ser maior que 0."
    }
  }

  /** Every validation failure is reported with its own message. */
  lemma MessagesDistinct(a: ValidationError, b: ValidationError)
    requires a != b
    ensures a.Message() != b.Message()
  {
  }

  /** One element of the request's `items`, after PHP's `(int)` and `(float)` casts;
      a client may also send a `total_price`, which nothing reads. */
  datatype ItemInput = ItemInput(productName: string, quantity: int, unitPrice: Amount, totalPrice: Option<Amount>)

  /** The array `toArray` hands to the store. */
  datatype ItemArray = ItemArray(productName: string, quantity: int, unitPrice: Amount, totalPrice: Amount)

  type Amount = int

  datatype OrderItemDto = OrderItemDto(productName: string, quantity: int, unitPrice: Amount) {

    /** `round(quantity * unitPrice, 2)`. */
    function CalculateTotalPrice(): (r: Amount)
      ensures r % UnitsPerCent == 0
      ensures quantity * unitPrice >= 0 ==> -50 < r - quantity * unitPrice <= 50
      ensures quantity * unitPrice < 0 ==> -50 <= r - quantity * unitPrice < 50
    {
      RoundCents(quantity * unitPrice)
    }

    /** `toArray`: the three fields unchanged and the rounded line total. */
    function ToArray(): (a: ItemArray)
      ensures a.productName == productName && a.quantity == quantity && a.unitPrice == unitPrice
      ensures a.totalPrice == CalculateTotalPrice()
    {
      ItemArray(productName, quantity, unitPrice, CalculateTotalPrice())
    }

    /** `validate`: the first rule that fails decides the error. */
    function Validate(): (r: Outcome<ValidationError>)
      ensures r == Pass <==> !PhpEmpty(productName) && quantity >= 1 && unitPrice > 0
      ensures r == Fail(EmptyProductName) <==> PhpEmpty(productName)
      ensures r == Fail(QuantityBelowOne) <==> !PhpEmpty(productName) && quantity < 1
      ensures r == Fail(NonPositiveUnitPrice) <==> !PhpEmpty(productName) && quantity >= 1 && unitPrice <= 0
    {
      if PhpEmpty(productName) then Fail(EmptyProductName)
      else if quantity < 1 then Fail(QuantityBelowOne)
      else if unitPrice <= 0 then Fail(NonPositiveUnitPrice)
      else Pass
    }
  }

  /** `OrderItemDTO::fromArray`: a client-supplied total is ignored. */
  function FromArray(data: ItemInput): (dto: OrderItemDto)
    ensures dto.productName == data.productName
    ensures dto.quantity == data.quantity && dto.unitPrice == data.unitPrice
  {
    OrderItemDto(data.productName, data.quantity, data.unitPrice)
  }

  /** Reading back what `toArray` produced gives the same DTO. */
  lemma ToArrayFromArrayRoundTrip(dto: OrderItemDto)
    ensures var a := dto.ToArray(); FromArray(ItemInput(a.productName, a.quantity, a.unitPrice, Some(a.totalPrice))) == dto
  {
  }

  /** A valid item has a non-negative total (it may round down to zero when the
      product is under half a cent). */
  lemma ValidItemTotalNonNegative(dto: OrderItemDto)
    requires dto.Validate() == Pass
    ensures dto.CalculateTotalPrice() >= 0
  {
    assert dto.quantity * dto.unitPrice >= dto.unitPrice by {
      assert dto.quantity * dto.unitPrice == (dto.quantity - 1) * dto.unitPrice + dto.unitPrice;
    }
  }

  /** The worked line totals: 3 x 25.50 = 76.50, 3 x 9.99 = 29.97, 2 x 10.00 = 20.00. */
  lemma LineTotalExamples()
    ensures OrderItemDto("Produto Teste", 3, 255000).CalculateTotalPrice() == 765000
    ensures OrderItemDto("Produto", 3, 99900).CalculateTotalPrice() == 299700
    ensures OrderItemDto("Produto", 2, 100000).ToArray() == ItemArray("Produto", 2, 100000, 200000)
  {
  }
}
