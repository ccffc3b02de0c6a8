/** The Eloquent OrderItem model: a persisted line item whose `saving` hook
    recomputes `total_price` before every save from the unit price as its
    `decimal:2` cast reads it. */
module OrderItemModel {
  import opened Money
  import opened OrderItemDtos

  /** A row of the order_items table. */
  datatype ItemRow = ItemRow(id: nat, orderId: string, productName: string, quantity: int, unitPrice: Amount, totalPrice: Amount)

  class OrderItem {
    var id: nat
    var orderId: string
    var productName: string
    var quantity: int
    var unitPrice: Amount
    var totalPrice: Amount

    /** A new instance under order `orderId`, its fillable attributes assigned from
        `attributes`, before the save. */
    constructor (id: nat, orderId: string, attributes: ItemArray)
      ensures this.id == id && this.orderId == orderId
      ensures productName == attributes.productName && quantity == attributes.quantity
      ensures unitPrice == attributes.unitPrice && totalPrice == attributes.totalPrice
    {
      this.id := id;
      this.orderId := orderId;
      productName := attributes.productName;
      quantity := attributes.quantity;
      unitPrice := attributes.unitPrice;
      totalPrice := attributes.totalPrice;
    }

    /** `calculateTotalPrice`: `quantity * unit_price`, with `unit_price` read
        through its `decimal:2` cast and the product not rounded again. The result
        is in whole cents, lies within half a cent per unit of the exact product,
        and is the DTO's rounded line total whenever the unit price is in whole
        cents. */
    function CalculateTotalPrice(): (r: Amount)
      reads this
      ensures r == quantity * Decimal2(unitPrice)
      ensures r % UnitsPerCent == 0
      ensures quantity >= 0 ==> -50 * quantity <= r - quantity * unitPrice <= 50 * quantity
      ensures unitPrice % UnitsPerCent == 0 ==> r == OrderItemDto(productName, quantity, unitPrice).CalculateTotalPrice()
    {
      var price := Decimal2(unitPrice);
      WholeCentsScale(quantity, price);
      RoundCentsOfWholeCents(quantity * price);
      ScaledDrift(quantity, price, unitPrice);
      quantity * price
    }

    /** The `saving` hook: `total_price` is overwritten with `calculateTotalPrice`;
        nothing else changes. */
    method Saving()
      modifies this
      ensures totalPrice == old(CalculateTotalPrice())
      ensures id == old(id) && orderId == old(orderId) && productName == old(productName)
      ensures quantity == old(quantity) && unitPrice == old(unitPrice)
    {
      totalPrice := CalculateTotalPrice();
    }

    /** The attributes as a table row. */
    function Row(): ItemRow
      reads this
    {
      ItemRow(id, orderId, productName, quantity, unitPrice, totalPrice)
    }
  }

  /** The row persisted when `attributes` is saved under `orderId` with id `id`:
      the saving hook has replaced whatever total was supplied by the quantity
      times the cast unit price, an amount in whole cents. */
  function SavedRow(id: nat, orderId: string, attributes: ItemArray): (r: ItemRow)
    ensures r.id == id && r.orderId == orderId
    ensures r.productName == attributes.productName && r.quantity == attributes.quantity
    ensures r.unitPrice == attributes.unitPrice
    ensures r.totalPrice == attributes.quantity * Decimal2(attributes.unitPrice)
    ensures r.totalPrice % UnitsPerCent == 0
  {
    WholeCentsScale(attributes.quantity, Decimal2(attributes.unitPrice));
    ItemRow(id, orderId, attributes.productName, attributes.quantity, attributes.unitPrice,
            attributes.quantity * Decimal2(attributes.unitPrice))
  }

  /** The rows persisted for `arrays`, in order, with consecutive ids from `firstId`. */
  function SavedRows(firstId: nat, orderId: string, arrays: seq<ItemArray>): (r: seq<ItemRow>)
    ensures |r| == |arrays|
    decreases |arrays|
  {
    if arrays == [] then []
    else
      var n := |arrays| - 1;
      SavedRows(firstId, orderId, arrays[..n]) + [SavedRow(firstId + n, orderId, arrays[n])]
  }

  /** Row `i` of a batch is array `i` saved under id `firstId + i`. */
  lemma {:induction false} SavedRowsAt(firstId: nat, orderId: string, arrays: seq<ItemArray>)
    ensures forall i :: 0 <= i < |arrays| ==>
              SavedRows(firstId, orderId, arrays)[i] == SavedRow(firstId + i, orderId, arrays[i])
    decreases |arrays|
  {
    if arrays != [] {
      var n := |arrays| - 1;
      SavedRowsAt(firstId, orderId, arrays[..n]);
    }
  }

  /** The supplied `total_price` is discarded: two arrays that differ only there
      are saved as the same row. */
  lemma SavedRowIgnoresSuppliedTotal(id: nat, orderId: string, a: ItemArray, b: ItemArray)
    requires a.productName == b.productName && a.quantity == b.quantity && a.unitPrice == b.unitPrice
    ensures SavedRow(id, orderId, a) == SavedRow(id, orderId, b)
  {
  }

  /** The persisted line total can differ from the DTO's: for 3 x 0.3333 the DTO's
      `toArray` sends 1.00, while the hook stores 3 x 0.33 = 0.99. */
  lemma SavedTotalDiffersFromDto()
    ensures var dto := OrderItemDto("Produto", 3, 3333);
            && dto.ToArray().totalPrice == 10000
            && SavedRow(1, "order", dto.ToArray()).totalPrice == 9900
  {
  }
}
