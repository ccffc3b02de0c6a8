/** The order-creation DTO: parsing of the request, the attributes handed to the
    store, validation in the source's rule order, and the rounded subtotal and total. */
module CreateOrderDtos {
  import opened Common
  import opened Text
  import opened Money
  import opened OrderStatusEnum
  import opened OrderItemDtos

  /** The free-form `notes` object of the request. */
  type Notes = map<string, string>

  /** The request fields; `items` may be absent, `discount` and `tax` are absent
      unless set. */
  datatype OrderInput = OrderInput(
    customerName: string,
    items: Option<seq<ItemInput>>,
    discount: Option<Amount>,
    tax: Option<Amount>,
    notes: Option<Notes>)

  datatype CreateOrderDto = CreateOrderDto(
    customerName: string,
    items: seq<OrderItemDto>,
    discount: Option<Amount>,
    tax: Option<Amount>,
    notes: Option<Notes>)

  /** The order attributes `toArray` hands to the store. */
  datatype OrderArray = OrderArray(customerName: string, status: Status, discount: Amount, tax: Amount, notes: Option<Notes>)

  /** `CreateOrderDTO::fromArray`: the items are parsed one by one, in order. */
  method FromArray(data: OrderInput) returns (dto: CreateOrderDto)
    ensures dto.customerName == data.customerName && dto.notes == data.notes
    ensures dto.discount == data.discount && dto.tax == data.tax
    ensures |dto.items| == |data.items.GetOr([])|
    ensures forall i :: 0 <= i < |dto.items| ==> dto.items[i] == OrderItemDtos.FromArray(data.items.GetOr([])[i])
  {
    var inputs := data.items.GetOr([]);
    var items: seq<OrderItemDto> := [];
    var i := 0;
    while i < |inputs|
      invariant 0 <= i <= |inputs| && |items| == i
      invariant forall k :: 0 <= k < i ==> items[k] == OrderItemDtos.FromArray(inputs[k])
    {
      items := items + [OrderItemDtos.FromArray(inputs[i])];
      i := i + 1;
    }
    dto := CreateOrderDto(data.customerName, items, data.discount, data.tax, data.notes);
  }

  /** `toArray`: the status is always draft and a missing discount or tax is 0. */
  function ToArray(dto: CreateOrderDto): (a: OrderArray)
    ensures a.status == Draft
    ensures a.customerName == dto.customerName && a.notes == dto.notes
    ensures dto.discount.None? ==> a.discount == 0
    ensures dto.discount.Some? ==> a.discount == dto.discount.value
    ensures dto.tax.None? ==> a.tax == 0
    ensures dto.tax.Some? ==> a.tax == dto.tax.value
  {
    OrderArray(dto.customerName, Draft, dto.discount.GetOr(0), dto.tax.GetOr(0), dto.notes)
  }

  /** The first item whose own validation fails decides the error; Pass when every
      item passes. */
  function FirstItemFailure(items: seq<OrderItemDto>): (r: Outcome<ValidationError>)
    ensures r == Pass <==> forall i :: 0 <= i < |items| ==> items[i].Validate() == Pass
    ensures r.Fail? ==> exists k :: 0 <= k < |items| && items[k].Validate() == r
                                   && forall j :: 0 <= j < k ==> items[j].Validate() == Pass
  {
    if items == [] then Pass
    else if items[0].Validate().Fail? then items[0].Validate()
    else
      var rest := FirstItemFailure(items[1..]);
      assert forall i :: 1 <= i < |items| ==> items[i] == items[1..][i - 1];
      rest
  }

  /** The rule order of `validate`: customer name, items present, discount, tax,
      then every item in turn. */
  function ValidationOutcome(dto: CreateOrderDto): (r: Outcome<ValidationError>)
    ensures r == Fail(EmptyCustomerName) <==> PhpEmpty(dto.customerName)
    ensures r == Fail(NoItems) <==> !PhpEmpty(dto.customerName) && dto.items == []
    ensures r == Fail(NegativeDiscount) <==>
              !PhpEmpty(dto.customerName) && dto.items != [] && dto.discount.Some? && dto.discount.value < 0
    ensures r == Fail(NegativeTax) <==>
              !PhpEmpty(dto.customerName) && dto.items != [] && !(dto.discount.Some? && dto.discount.value < 0)
              && dto.tax.Some? && dto.tax.value < 0
    ensures (&& !PhpEmpty(dto.customerName) && dto.items != []
             && !(dto.discount.Some? && dto.discount.value < 0) && !(dto.tax.Some? && dto.tax.value < 0))
            ==> r == FirstItemFailure(dto.items)
    ensures r == Pass <==> ValidOrder(dto)
  {
    if PhpEmpty(dto.customerName) then Fail(EmptyCustomerName)
    else if dto.items == [] then Fail(NoItems)
    else if dto.discount.Some? && dto.discount.value < 0 then Fail(NegativeDiscount)
    else if dto.tax.Some? && dto.tax.value < 0 then Fail(NegativeTax)
    else FirstItemFailure(dto.items)
  }

  /** Everything `validate` demands, as one independent predicate. */
  predicate ValidOrder(dto: CreateOrderDto) {
    && !PhpEmpty(dto.customerName)
    && |dto.items| > 0
    && (dto.discount.Some? ==> dto.discount.value >= 0)
    && (dto.tax.Some? ==> dto.tax.value >= 0)
    && forall i :: 0 <= i < |dto.items| ==>
         !PhpEmpty(dto.items[i].productName) && dto.items[i].quantity >= 1 && dto.items[i].unitPrice > 0
  }

  /** `validate`: the rules in order, stopping at the first failure. */
  method Validate(dto: CreateOrderDto) returns (r: Outcome<ValidationError>)
    ensures r == ValidationOutcome(dto)
  {
    if PhpEmpty(dto.customerName) {
      return Fail(EmptyCustomerName);
    }
    if dto.items == [] {
      return Fail(NoItems);
    }
    if dto.discount.Some? && dto.discount.value < 0 {
      return Fail(NegativeDiscount);
    }
    if dto.tax.Some? && dto.tax.value < 0 {
      return Fail(NegativeTax);
    }
    var i := 0;
    while i < |dto.items|
      invariant 0 <= i <= |dto.items|
      invariant forall j :: 0 <= j < i ==> dto.items[j].Validate() == Pass
    {
      var itemOutcome := dto.items[i].Validate();
      if itemOutcome.Fail? {
        FirstFailureAt(dto.items, i);
        return itemOutcome;
      }
      i := i + 1;
    }
    return Pass;
  }

  lemma FirstFailureAt(items: seq<OrderItemDto>, i: nat)
    requires i < |items| && items[i].Validate().Fail?
    requires forall j :: 0 <= j < i ==> items[j].Validate() == Pass
    ensures FirstItemFailure(items) == items[i].Validate()
  {
    var r := FirstItemFailure(items);
    var k :| 0 <= k < |items| && items[k].Validate() == r && forall j :: 0 <= j < k ==> items[j].Validate() == Pass;
  }

  /** The running sum of the rounded line totals, first item first. */
  function SumLineTotals(items: seq<OrderItemDto>): (r: Amount)
    ensures r % UnitsPerCent == 0
  {
    if items == [] then 0
    else
      var init, line := SumLineTotals(items[..|items| - 1]), items[|items| - 1].CalculateTotalPrice();
      WholeCentsAdd(init, line);
      init + line
  }

  /** `calculateSubtotal` as a value: `round(Σ line totals, 2)`. */
  function Subtotal(dto: CreateOrderDto): Amount {
    RoundCents(SumLineTotals(dto.items))
  }

  /** `calculateSubtotal`: accumulate the line totals, then round. The final rounding
      changes nothing, since every line total is already in whole cents. */
  method CalculateSubtotal(dto: CreateOrderDto) returns (subtotal: Amount)
    ensures subtotal == Subtotal(dto)
    ensures subtotal == SumLineTotals(dto.items)
  {
    var sum := 0;
    var i := 0;
    while i < |dto.items|
      invariant 0 <= i <= |dto.items|
      invariant sum == SumLineTotals(dto.items[..i])
    {
      assert dto.items[..i + 1][..i] == dto.items[..i];
      sum := sum + dto.items[i].CalculateTotalPrice();
      i := i + 1;
    }
    assert dto.items[..i] == dto.items;
    subtotal := RoundCents(sum);
    RoundCentsOfWholeCents(sum);
  }

  /** `calculateTotal`: `max(0, round(subtotal - discount + tax, 2))`. */
  function CalculateTotal(dto: CreateOrderDto): (r: Amount)
    ensures r >= 0 && r % UnitsPerCent == 0
    ensures r == 0 <==> Net(Subtotal(dto), dto.discount, dto.tax) < 50
    ensures r != 0 ==> -50 < r - Net(Subtotal(dto), dto.discount, dto.tax) <= 50
  {
    RoundedTotal(Subtotal(dto), dto.discount, dto.tax)
  }

  /** Valid items never sum to a negative subtotal. */
  lemma {:induction false} ValidItemsSumNonNegative(items: seq<OrderItemDto>)
    requires forall i :: 0 <= i < |items| ==> items[i].Validate() == Pass
    ensures SumLineTotals(items) >= 0
  {
    if items != [] {
      var init := items[..|items| - 1];
      assert forall i :: 0 <= i < |init| ==> init[i] == items[i];
      ValidItemsSumNonNegative(init);
      ValidItemTotalNonNegative(items[|items| - 1]);
    }
  }

  /** A valid order has a non-negative subtotal in whole cents. */
  lemma ValidOrderSubtotal(dto: CreateOrderDto)
    requires ValidOrder(dto)
    ensures Subtotal(dto) == SumLineTotals(dto.items) >= 0
  {
    ValidItemsSumNonNegative(dto.items);
    RoundCentsOfWholeCents(SumLineTotals(dto.items));
  }

  /** The worked order: items 2 x 50.00 and 1 x 100.00, discount 10.00 and tax 5.00
      give subtotal 200.00 and total 195.00. */
  lemma OrderTotalExample()
    ensures var dto := CreateOrderDto("Cliente Teste",
                                      [OrderItemDto("Produto 1", 2, 500000), OrderItemDto("Produto 2", 1, 1000000)],
                                      Some(100000), Some(50000), None);
            Subtotal(dto) == 2000000 && CalculateTotal(dto) == 1950000
  {
    var items := [OrderItemDto("Produto 1", 2, 500000), OrderItemDto("Produto 2", 1, 1000000)];
    assert items[..1][..0] == [];
    assert SumLineTotals(items[..1]) == 1000000;
    assert items[..|items| - 1] == items[..1];
  }
}
