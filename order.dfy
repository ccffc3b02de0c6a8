/** The Eloquent Order model: the order row, its default attributes, the total
    arithmetic over the cast attributes of the stored items (no rounding of its
    own), the query scopes and the `(created_at desc, id desc)` ordering. */
module OrderModel {
  import opened Common
  import opened Text
  import opened Money
  import opened OrderStatusEnum
  import opened OrderItemDtos
  import opened CreateOrderDtos
  import opened OrderItemModel

  /** A row of the orders table; `deletedAt` is the soft-delete mark. */
  datatype OrderRow = OrderRow(
    id: string,
    customerName: string,
    status: Status,
    subtotal: Amount,
    discount: Amount,
    tax: Amount,
    total: Amount,
    notes: Option<Notes>,
    createdAt: int,
    updatedAt: int,
    deletedAt: Option<int>)

  /** An order loaded together with its items. */
  datatype OrderView = OrderView(order: OrderRow, items: seq<ItemRow>)

  /** The attributes given to `Order::create`; an absent one takes its default. */
  datatype OrderFill = OrderFill(
    customerName: string,
    status: Option<Status>,
    subtotal: Option<Amount>,
    discount: Option<Amount>,
    tax: Option<Amount>,
    total: Option<Amount>,
    notes: Option<Notes>)

  /** The attributes an `update` may assign; an absent one is left as it is. */
  datatype OrderPatch = OrderPatch(
    customerName: Option<string>,
    status: Option<Status>,
    subtotal: Option<Amount>,
    discount: Option<Amount>,
    tax: Option<Amount>,
    total: Option<Amount>)

  /** The default attributes of a new order: draft, with every amount zero. */
  const DefaultStatus: Status := Draft
  const DefaultAmount: Amount := 0

  /** The row `Order::create(fill)` inserts under `id` at time `now`. */
  function NewRow(id: string, fill: OrderFill, now: int): (r: OrderRow)
    ensures r.id == id && r.customerName == fill.customerName && r.notes == fill.notes
    ensures r.status == fill.status.GetOr(Draft)
    ensures r.subtotal == fill.subtotal.GetOr(0) && r.total == fill.total.GetOr(0)
    ensures r.discount == fill.discount.GetOr(0) && r.tax == fill.tax.GetOr(0)
    ensures r.createdAt == now && r.updatedAt == now && r.deletedAt == None
  {
    OrderRow(id, fill.customerName, fill.status.GetOr(DefaultStatus),
             fill.subtotal.GetOr(DefaultAmount), fill.discount.GetOr(DefaultAmount),
             fill.tax.GetOr(DefaultAmount), fill.total.GetOr(DefaultAmount),
             fill.notes, now, now, None)
  }

  /** The row after assigning `patch`, ignoring timestamps. */
  function Patched(row: OrderRow, patch: OrderPatch): OrderRow
  {
    row.(customerName := patch.customerName.GetOr(row.customerName),
         status := patch.status.GetOr(row.status),
         subtotal := patch.subtotal.GetOr(row.subtotal),
         discount := patch.discount.GetOr(row.discount),
         tax := patch.tax.GetOr(row.tax),
         total := patch.total.GetOr(row.total))
  }

  /** `$order->update(patch)` at time `now`: the patched attributes are assigned and,
      only when one of them actually changed, `updated_at` is touched. */
  function ApplyPatch(row: OrderRow, patch: OrderPatch, now: int): (r: OrderRow)
    ensures r.id == row.id && r.notes == row.notes
    ensures r.createdAt == row.createdAt && r.deletedAt == row.deletedAt
    ensures patch.status.Some? ==> r.status == patch.status.value
    ensures patch.status.None? ==> r.status == row.status
    ensures r.updatedAt == (if Patched(row, patch) == row then row.updatedAt else now)
    ensures r.(updatedAt := row.updatedAt) == Patched(row, patch)
  {
    var p := Patched(row, patch);
    if p == row then row else p.(updatedAt := now)
  }

  /** A patch that assigns only the status. */
  function StatusPatch(s: Status): OrderPatch
  {
    OrderPatch(None, Some(s), None, None, None, None)
  }

  /** `$this->items->sum('total_price')`: each stored total read through its
      `decimal:2` cast, so the sum is in whole cents. */
  function SumTotalPrices(items: seq<ItemRow>): (r: Amount)
    ensures r % UnitsPerCent == 0
    decreases |items|
  {
    if items == [] then 0
    else
      var init, last := SumTotalPrices(items[..|items| - 1]), Decimal2(items[|items| - 1].totalPrice);
      WholeCentsAdd(init, last);
      init + last
  }

  lemma {:induction false} SumTotalPricesAppend(items: seq<ItemRow>, x: ItemRow)
    ensures SumTotalPrices(items + [x]) == SumTotalPrices(items) + Decimal2(x.totalPrice)
  {
    assert (items + [x])[..|items|] == items;
  }

  /** A sum of line totals none of which is negative is not negative. */
  lemma {:induction false} SumOfNonNegativeTotals(items: seq<ItemRow>)
    ensures (forall i :: 0 <= i < |items| ==> items[i].totalPrice >= 0) ==> SumTotalPrices(items) >= 0
    decreases |items|
  {
    if items != [] {
      var init := items[..|items| - 1];
      assert forall i :: 0 <= i < |init| ==> init[i] == items[i];
      SumOfNonNegativeTotals(init);
    }
  }

  class Order {
    var id: string
    var customerName: string
    var status: Status
    var subtotal: Amount
    var discount: Amount
    var tax: Amount
    var total: Amount
    var notes: Option<Notes>
    var createdAt: int
    var updatedAt: int
    var deletedAt: Option<int>
    var items: seq<ItemRow>

    /** `new Order()`: the default attributes, draft with every amount zero. */
    constructor ()
      ensures status == Draft && subtotal == 0 && discount == 0 && tax == 0 && total == 0
      ensures id == "" && customerName == "" && notes == None && deletedAt == None && items == []
    {
      id := "";
      customerName := "";
      status := DefaultStatus;
      subtotal := DefaultAmount;
      discount := DefaultAmount;
      tax := DefaultAmount;
      total := DefaultAmount;
      notes := None;
      createdAt := 0;
      updatedAt := 0;
      deletedAt := None;
      items := [];
    }

    /** An instance loaded from a stored order and its items. */
    constructor Load(v: OrderView)
      ensures Attributes() == v.order && items == v.items
    {
      id := v.order.id;
      customerName := v.order.customerName;
      status := v.order.status;
      subtotal := v.order.subtotal;
      discount := v.order.discount;
      tax := v.order.tax;
      total := v.order.total;
      notes := v.order.notes;
      createdAt := v.order.createdAt;
      updatedAt := v.order.updatedAt;
      deletedAt := v.order.deletedAt;
      items := v.items;
    }

    /** The instance's attributes as a row. */
    function Attributes(): OrderRow
      reads this
    {
      OrderRow(id, customerName, status, subtotal, discount, tax, total, notes,
               createdAt, updatedAt, deletedAt)
    }

    /** `calculateSubtotal`: the sum of the loaded items' stored `total_price`,
        each read through its cast and the sum not rounded again; in whole cents,
        and never negative when no line total is. */
    function CalculateSubtotal(): (r: Amount)
      reads this
      ensures r % UnitsPerCent == 0
      ensures (forall i :: 0 <= i < |items| ==> items[i].totalPrice >= 0) ==> r >= 0
    {
      SumOfNonNegativeTotals(items);
      SumTotalPrices(items)
    }

    /** `calculateTotal`: `max(0, subtotal - discount + tax)` over the recomputed
        subtotal and the cast discount and tax, not rounded again: never negative,
        in whole cents, and equal to the net amount whenever that is not negative. */
    function CalculateTotal(): (r: Amount)
      reads this
      ensures r >= 0 && r % UnitsPerCent == 0
      ensures CalculateSubtotal() - Decimal2(discount) + Decimal2(tax) >= 0 ==>
                r == CalculateSubtotal() - Decimal2(discount) + Decimal2(tax)
      ensures CalculateSubtotal() - Decimal2(discount) + Decimal2(tax) < 0 ==> r == 0
    {
      var sub, disc, fee := CalculateSubtotal(), Decimal2(discount), Decimal2(tax);
      WholeCentsNet(sub, disc, fee);
      Max0(sub - disc + fee)
    }

    /** The totals agree with the items: what `recalculateTotals` establishes. */
    predicate TotalsConsistent()
      reads this
    {
      subtotal == SumTotalPrices(items) && total == Max0(subtotal - Decimal2(discount) + Decimal2(tax))
    }

    /** `recalculateTotals`: assigns the recomputed subtotal and total, changes no
        other attribute, and returns the same instance. */
    method RecalculateTotals() returns (self: Order)
      modifies this
      ensures self == this
      ensures subtotal == old(CalculateSubtotal()) && total == old(CalculateTotal())
      ensures TotalsConsistent()
      ensures id == old(id) && customerName == old(customerName) && status == old(status)
      ensures discount == old(discount) && tax == old(tax) && notes == old(notes)
      ensures createdAt == old(createdAt) && updatedAt == old(updatedAt)
      ensures deletedAt == old(deletedAt) && items == old(items)
    {
      subtotal := CalculateSubtotal();
      total := CalculateTotal();
      self := this;
    }

    /** `canTransitionTo`: delegates to the current status. */
    function CanTransitionTo(next: Status): (r: bool)
      reads this
      ensures r <==> next in status.AllowedTransitions()
      ensures r ==> next != status && next != Draft
    {
      status.CanTransitionTo(next)
    }
  }

  /** Scope `byStatus`: the stored status token equals the filter exactly. */
  predicate ByStatus(row: OrderRow, status: string)
  {
    row.status.Value() == status
  }

  /** Scope `byCustomerName`: `customer_name LIKE '%name%'`, a substring match. */
  predicate ByCustomerName(row: OrderRow, name: string)
  {
    Contains(row.customerName, name)
  }

  lemma ByStatusExact(row: OrderRow, s: Status)
    ensures ByStatus(row, s.Value()) <==> row.status == s
  {
    if ByStatus(row, s.Value()) {
      TryFromValue(row.status);
      TryFromValue(s);
    }
  }

  lemma ByCustomerNameMatchesInfix(row: OrderRow, before: string, name: string, after: string)
    requires row.customerName == before + name + after
    ensures ByCustomerName(row, name)
  {
    ContainsInfix(before, name, after);
  }

  /** Only an occurrence of the name matches, so with ByCustomerNameMatchesInfix the
      scope holds exactly when the name occurs in the customer name. */
  lemma ByCustomerNameHasInfix(row: OrderRow, name: string)
    requires ByCustomerName(row, name)
    ensures exists before, after :: row.customerName == before + name + after
  {
    ContainsSplit(row.customerName, name);
  }

  /** Scope `orderByCreatedDesc`: `a` comes strictly before `b` when it is newer, or
      equally old with the greater id. */
  predicate Precedes(a: OrderRow, b: OrderRow)
  {
    a.createdAt > b.createdAt || (a.createdAt == b.createdAt && StrLess(b.id, a.id))
  }

  lemma PrecedesIrreflexive(a: OrderRow)
    ensures !Precedes(a, a)
  {
    StrLessIrreflexive(a.id);
  }

  lemma PrecedesTransitive(a: OrderRow, b: OrderRow, c: OrderRow)
    requires Precedes(a, b) && Precedes(b, c)
    ensures Precedes(a, c)
  {
    if a.createdAt == b.createdAt == c.createdAt {
      StrLessTransitive(c.id, b.id, a.id);
    }
  }

  lemma PrecedesAsymmetric(a: OrderRow, b: OrderRow)
    requires Precedes(a, b)
    ensures !Precedes(b, a)
  {
    if a.createdAt == b.createdAt {
      StrLessAsymmetric(b.id, a.id);
    }
  }

  /** Two rows with distinct ids are always ordered one way or the other. */
  lemma PrecedesTotal(a: OrderRow, b: OrderRow)
    requires a.id != b.id
    ensures Precedes(a, b) || Precedes(b, a)
  {
    StrLessTrichotomy(a.id, b.id);
  }

  /** "Not after" is transitive. */
  lemma NotPrecedesTransitive(a: OrderRow, b: OrderRow, c: OrderRow)
    requires !Precedes(b, a) && !Precedes(c, b)
    ensures !Precedes(c, a)
  {
    if a.createdAt == b.createdAt == c.createdAt {
      StrLessTrichotomy(a.id, b.id);
      StrLessTrichotomy(b.id, c.id);
      if a.id != b.id && b.id != c.id {
        StrLessTransitive(c.id, b.id, a.id);
        StrLessAsymmetric(c.id, a.id);
      }
    }
  }

  /** A row not after `b` comes before anything `b` comes before. */
  lemma PrecedesThroughNotPrecedes(a: OrderRow, b: OrderRow, c: OrderRow)
    requires !Precedes(b, a) && Precedes(b, c)
    ensures Precedes(a, c)
  {
    if a.createdAt == b.createdAt == c.createdAt {
      StrLessTrichotomy(a.id, b.id);
      if a.id != b.id {
        StrLessTransitive(c.id, b.id, a.id);
      }
    }
  }

  /** No later element comes strictly before an earlier one. */
  predicate SortedDesc(s: seq<OrderView>)
  {
    forall i, j :: 0 <= i < j < |s| ==> !Precedes(s[j].order, s[i].order)
  }

  /** Inserts `x` before the first element it does not follow. */
  function InsertDesc(x: OrderView, s: seq<OrderView>): (r: seq<OrderView>)
    ensures |r| == |s| + 1
    decreases |s|
  {
    if s == [] then [x]
    else if Precedes(s[0].order, x.order) then [s[0]] + InsertDesc(x, s[1..])
    else [x] + s
  }

  lemma {:induction false} InsertDescPermutes(x: OrderView, s: seq<OrderView>)
    ensures multiset(InsertDesc(x, s)) == multiset(s) + multiset{x}
    decreases |s|
  {
    if s != [] && Precedes(s[0].order, x.order) {
      InsertDescPermutes(x, s[1..]);
      assert s == [s[0]] + s[1..];
    }
  }

  /** The inserted sequence holds `x` and the elements of `s`, nothing else. */
  lemma {:induction false} InsertDescMembers(x: OrderView, s: seq<OrderView>)
    ensures forall y :: y in InsertDesc(x, s) <==> y == x || y in s
    decreases |s|
  {
    if s != [] && Precedes(s[0].order, x.order) {
      InsertDescMembers(x, s[1..]);
      assert s == [s[0]] + s[1..];
    }
  }

  /** A head that no element of a sorted tail precedes keeps the sequence sorted. */
  lemma ConsSorted(h: OrderView, t: seq<OrderView>)
    requires SortedDesc(t)
    requires forall v :: v in t ==> !Precedes(v.order, h.order)
    ensures SortedDesc([h] + t)
  {
    var r := [h] + t;
    forall i, j | 0 <= i < j < |r|
      ensures !Precedes(r[j].order, r[i].order)
    {
      assert r[j] == t[j - 1];
      if i > 0 {
        assert r[i] == t[i - 1];
      }
    }
  }

  lemma {:induction false} InsertDescSorted(x: OrderView, s: seq<OrderView>)
    requires SortedDesc(s)
    ensures SortedDesc(InsertDesc(x, s))
    decreases |s|
  {
    if s == [] {
    } else if Precedes(s[0].order, x.order) {
      var tail := InsertDesc(x, s[1..]);
      InsertDescSorted(x, s[1..]);
      InsertDescMembers(x, s[1..]);
      forall v | v in tail
        ensures !Precedes(v.order, s[0].order)
      {
        if v == x {
          PrecedesAsymmetric(s[0].order, x.order);
        } else {
          var k :| 0 <= k < |s[1..]| && s[1..][k] == v;
          assert s[k + 1] == v;
        }
      }
      ConsSorted(s[0], tail);
    } else {
      forall v | v in s
        ensures !Precedes(v.order, x.order)
      {
        var j :| 0 <= j < |s| && s[j] == v;
        if j > 0 {
          NotPrecedesTransitive(x.order, s[0].order, s[j].order);
        }
      }
      ConsSorted(x, s);
    }
  }

  /** `orderByCreatedDesc` on a result set: insertion sort. */
  function SortDesc(s: seq<OrderView>): (r: seq<OrderView>)
    ensures |r| == |s|
    decreases |s|
  {
    if s == [] then [] else InsertDesc(s[0], SortDesc(s[1..]))
  }

  /** The sort permutes its input ... */
  lemma {:induction false} SortDescPermutes(s: seq<OrderView>)
    ensures multiset(SortDesc(s)) == multiset(s)
    decreases |s|
  {
    if s != [] {
      SortDescPermutes(s[1..]);
      InsertDescPermutes(s[0], SortDesc(s[1..]));
      assert s == [s[0]] + s[1..];
    }
  }

  /** ... into listing order. */
  lemma {:induction false} SortDescSorted(s: seq<OrderView>)
    ensures SortedDesc(SortDesc(s))
    decreases |s|
  {
    if s != [] {
      SortDescSorted(s[1..]);
      InsertDescSorted(s[0], SortDesc(s[1..]));
    }
  }
}
