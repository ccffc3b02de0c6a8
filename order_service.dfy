/** The order service: cursor listing, order creation, guarded status changes and
    soft deletion, each with its audit record. A transaction is all-or-nothing:
    every failure is raised before the first write, so the tables and the audit
    log are left as they were. */
module OrderServiceModel {
  import opened Common
  import opened Money
  import opened OrderStatusEnum
  import opened StatusTransitionErrors
  import opened UpdateStatusDtos
  import opened OrderItemDtos
  import opened CreateOrderDtos
  import opened OrderItemModel
  import opened OrderModel
  import opened AuditLogModel
  import opened OrderRepositoryModel

  // ---------------------------------------------------------------------------
  // Cursor listing

  /** The cursor listing's result: the page, the token for the next one, and
      whether more rows follow. */
  datatype CursorPage = CursorPage(data: seq<OrderView>, nextCursor: Option<CursorToken>, hasMore: bool)

  /** The trimming `listOrdersWithCursor` applies to the `limit + 1` rows fetched:
      more rows than `limit` means there is a next page, which starts after the
      last row kept. */
  function PageFrom(rows: seq<OrderView>, limit: nat): (r: CursorPage)
    ensures r.hasMore <==> |rows| > limit
    ensures r.data <= rows && (r.hasMore ==> |r.data| == limit) && (!r.hasMore ==> r.data == rows)
    ensures r.nextCursor.Some? <==> r.hasMore && r.data != []
    ensures r.nextCursor.Some? ==> r.nextCursor.value == EncodeCursor(r.data[|r.data| - 1].order)
  {
    var hasMore := |rows| > limit;
    var data := if hasMore then rows[..limit] else rows;
    var next := if hasMore && data != [] then Some(EncodeCursor(data[|data| - 1].order)) else None;
    CursorPage(data, next, hasMore)
  }

  /** `listOrdersWithCursor` over the tables: the first `limit` rows of the
      filtered listing after the cursor, and `has_more` exactly when rows remain
      beyond them. */
  function CursorListing(orders: seq<OrderRow>, items: seq<ItemRow>, token: CursorToken, limit: int, filters: Filters): (r: CursorPage)
    requires 1 <= limit <= 100
    ensures var q := Query(orders, items, filters, DecodeCursor(token));
            && r.data <= q
            && (r.hasMore <==> |q| > limit)
            && (r.hasMore ==> |r.data| == limit)
            && (!r.hasMore ==> r.data == q)
  {
    PageFrom(KeysetQuery(orders, items, token, limit, filters), limit)
  }

  /** The last row of a page. */
  function LastOf(p: CursorPage): OrderRow
    requires p.data != []
  {
    p.data[|p.data| - 1].order
  }

  /** A page holds at most `limit` rows, in listing order, each a stored order
      that passes the filters and lies after the cursor; a page with more to come
      is full and carries a next cursor. */
  lemma PageBounds(orders: seq<OrderRow>, items: seq<ItemRow>, token: CursorToken, limit: int, filters: Filters)
    requires 1 <= limit <= 100
    ensures var p := CursorListing(orders, items, token, limit, filters);
            && |p.data| <= limit
            && SortedDesc(p.data)
            && (forall v :: v in p.data ==> v in Views(orders, items) && MatchesFilters(v.order, filters))
            && (DecodeCursor(token).Some? ==> forall v :: v in p.data ==> AfterCursor(v.order, DecodeCursor(token).value))
            && (p.hasMore ==> |p.data| == limit && p.nextCursor.Some?)
  {
    var rows := KeysetQuery(orders, items, token, limit, filters);
    var p := CursorListing(orders, items, token, limit, filters);
    assert forall i :: 0 <= i < |p.data| ==> p.data[i] == rows[i];
  }

  /** A page's next cursor is present only on a full, non-empty page and decodes
      to the key of the page's last row. */
  lemma NextCursorNamesLast(orders: seq<OrderRow>, items: seq<ItemRow>, token: CursorToken, limit: int, filters: Filters)
    requires 1 <= limit <= 100
    requires CursorListing(orders, items, token, limit, filters).nextCursor.Some?
    ensures var p := CursorListing(orders, items, token, limit, filters);
            && p.hasMore && |p.data| == limit
            && DecodeCursor(p.nextCursor.value) == Some(Cursor(LastOf(p).createdAt, LastOf(p).id))
  {
    var p := CursorListing(orders, items, token, limit, filters);
    CursorRoundTrip(LastOf(p));
  }

  /** Rows after the cursor of a sorted page's last row come after every row of
      that page, so none of them is on it. */
  lemma AfterSortedPage(page: seq<OrderView>, later: seq<OrderView>, c: Cursor)
    requires page != [] && SortedDesc(page)
    requires c == Cursor(page[|page| - 1].order.createdAt, page[|page| - 1].order.id)
    requires forall v :: v in later ==> AfterCursor(v.order, c)
    ensures forall u, v :: u in page && v in later ==> Precedes(u.order, v.order)
    ensures forall v :: v in later ==> v !in page
  {
    var last := page[|page| - 1];
    forall u, v | u in page && v in later
      ensures Precedes(u.order, v.order)
    {
      AfterCursorIsPrecedes(v.order, last.order);
      var i :| 0 <= i < |page| && page[i] == u;
      if i < |page| - 1 {
        PrecedesThroughNotPrecedes(u.order, last.order, v.order);
      }
    }
    forall v | v in later
      ensures v !in page
    {
      if v in page {
        PrecedesIrreflexive(v.order);
      }
    }
  }

  /** Every row of the page fetched with a page's next cursor comes after every row
      of that page; in particular consecutive pages share no order. */
  lemma ConsecutivePagesOrdered(orders: seq<OrderRow>, items: seq<ItemRow>, token: CursorToken, limit: int, filters: Filters)
    requires 1 <= limit <= 100
    requires CursorListing(orders, items, token, limit, filters).nextCursor.Some?
    ensures var p1 := CursorListing(orders, items, token, limit, filters);
            var p2 := CursorListing(orders, items, p1.nextCursor.value, limit, filters);
            && (forall u, v :: u in p1.data && v in p2.data ==> Precedes(u.order, v.order))
            && (forall v :: v in p2.data ==> v !in p1.data)
  {
    var p1 := CursorListing(orders, items, token, limit, filters);
    var next := p1.nextCursor.value;
    NextCursorNamesLast(orders, items, token, limit, filters);
    var q1 := Query(orders, items, filters, DecodeCursor(token));
    var q2 := Query(orders, items, filters, DecodeCursor(next));
    SortedPagesInOrder(q1, q2, limit);
  }

  /** The same on any two result sets: the first sorted, the second after the
      cursor of the first page's last row. */
  lemma SortedPagesInOrder(q1: seq<OrderView>, q2: seq<OrderView>, limit: nat)
    requires 1 <= limit && SortedDesc(q1)
    requires var p1 := PageFrom(Limit(q1, limit + 1), limit);
             && p1.data != []
             && forall v :: v in q2 ==> AfterCursor(v.order, Cursor(LastOf(p1).createdAt, LastOf(p1).id))
    ensures var p1 := PageFrom(Limit(q1, limit + 1), limit);
            var p2 := PageFrom(Limit(q2, limit + 1), limit);
            && (forall u, v :: u in p1.data && v in p2.data ==> Precedes(u.order, v.order))
            && (forall v :: v in p2.data ==> v !in p1.data)
  {
    var p1 := PageFrom(Limit(q1, limit + 1), limit);
    var p2 := PageFrom(Limit(q2, limit + 1), limit);
    assert forall i :: 0 <= i < |p1.data| ==> p1.data[i] == q1[i];
    assert forall v :: v in p2.data ==> v in q2;
    AfterSortedPage(p1.data, p2.data, Cursor(LastOf(p1).createdAt, LastOf(p1).id));
  }

  /** No row is skipped: a stored order that passes the filters and lies after
      the cursor is on the page, or after the page's last row with a next cursor
      to reach it. */
  lemma PageCovers(orders: seq<OrderRow>, items: seq<ItemRow>, token: CursorToken, limit: int, filters: Filters, v: OrderView)
    requires 1 <= limit <= 100 && UniqueIds(orders)
    requires v in Views(orders, items) && Matches(v.order, filters, DecodeCursor(token))
    ensures var p := CursorListing(orders, items, token, limit, filters);
            v in p.data || (p.nextCursor.Some? && Precedes(LastOf(p), v.order))
  {
    var q := Query(orders, items, filters, DecodeCursor(token));
    forall w | w in q && w.order.id == v.order.id
      ensures w == v
    {
      ViewsUniqueIds(orders, items, w, v);
    }
    SortedPageCovers(q, limit, v);
  }

  /** The same on any sorted result set in which `v` is the only row with its id. */
  lemma SortedPageCovers(q: seq<OrderView>, limit: nat, v: OrderView)
    requires 1 <= limit && SortedDesc(q) && v in q
    requires forall w :: w in q && w.order.id == v.order.id ==> w == v
    ensures var p := PageFrom(Limit(q, limit + 1), limit);
            v in p.data || (p.nextCursor.Some? && Precedes(LastOf(p), v.order))
  {
    var p := PageFrom(Limit(q, limit + 1), limit);
    var j :| 0 <= j < |q| && q[j] == v;
    if |q| > limit {
      assert p.data == q[..limit];
      if j >= limit {
        var last := q[limit - 1];
        assert last == p.data[|p.data| - 1];
        if last.order.id != v.order.id {
          PrecedesTotal(last.order, v.order);
        }
      }
    }
  }

  /** Following the next cursor continues the listing: an order after the last
      row of one page is on the next page or after its last row. */
  lemma NextPageCovers(orders: seq<OrderRow>, items: seq<ItemRow>, token: CursorToken, limit: int, filters: Filters, v: OrderView)
    requires 1 <= limit <= 100 && UniqueIds(orders)
    requires CursorListing(orders, items, token, limit, filters).nextCursor.Some?
    requires v in Views(orders, items) && MatchesFilters(v.order, filters)
    requires Precedes(LastOf(CursorListing(orders, items, token, limit, filters)), v.order)
    ensures var p1 := CursorListing(orders, items, token, limit, filters);
            var p2 := CursorListing(orders, items, p1.nextCursor.value, limit, filters);
            v in p2.data || (p2.nextCursor.Some? && Precedes(LastOf(p2), v.order))
  {
    var p1 := CursorListing(orders, items, token, limit, filters);
    NextCursorNamesLast(orders, items, token, limit, filters);
    AfterCursorIsPrecedes(v.order, LastOf(p1));
    PageCovers(orders, items, p1.nextCursor.value, limit, filters, v);
  }

  /** The first page of the offset listing and the first cursor page hold the
      same rows. */
  lemma OffsetAndCursorFirstPagesAgree(orders: seq<OrderRow>, items: seq<ItemRow>, limit: int, filters: Filters)
    requires 1 <= limit <= 100
    ensures Paginate(orders, items, filters, limit, 1).data == CursorListing(orders, items, Falsy, limit, filters).data
  {
    var q := Query(orders, items, filters, None);
    assert Offset(PageNumber(1), limit) == 0;
    assert q[0..] == q;
  }

  // ---------------------------------------------------------------------------
  // Creation data

  /** The item arrays `createOrder` hands to `addItems`: each item's `toArray`,
      in order. */
  function ItemArrays(items: seq<OrderItemDto>): (r: seq<ItemArray>)
    ensures |r| == |items|
    ensures forall i :: 0 <= i < |items| ==> r[i] == items[i].ToArray()
    decreases |items|
  {
    if items == [] then []
    else
      var n := |items| - 1;
      ItemArrays(items[..n]) + [items[n].ToArray()]
  }

  /** The order attributes `createOrder` stores: `toArray` with the DTO's
      subtotal and total. */
  function CreationFill(dto: CreateOrderDto): (f: OrderFill)
    ensures f.customerName == dto.customerName && f.notes == dto.notes && f.status == Some(Draft)
    ensures f.discount == Some(dto.discount.GetOr(0)) && f.tax == Some(dto.tax.GetOr(0))
    ensures f.subtotal == Some(Subtotal(dto)) && f.total == Some(CreateOrderDtos.CalculateTotal(dto))
  {
    var data := CreateOrderDtos.ToArray(dto);
    OrderFill(data.customerName, Some(data.status), Some(Subtotal(dto)), Some(data.discount), Some(data.tax),
              Some(CreateOrderDtos.CalculateTotal(dto)), data.notes)
  }

  /** The stored subtotal (the DTO's rounded line totals) and the subtotal the
      Order model recomputes from the saved items agree when every unit price is
      in whole cents. */
  lemma {:induction false} SavedItemsSubtotalExact(first: nat, orderId: string, items: seq<OrderItemDto>)
    requires forall i :: 0 <= i < |items| ==> items[i].unitPrice % UnitsPerCent == 0
    ensures SumTotalPrices(SavedRows(first, orderId, ItemArrays(items))) == SumLineTotals(items)
    decreases |items|
  {
    if items != [] {
      var n := |items| - 1;
      var init := items[..n];
      forall i | 0 <= i < n
        ensures init[i].unitPrice % UnitsPerCent == 0
      {
        assert init[i] == items[i];
      }
      SavedItemsSubtotalExact(first, orderId, init);
      ItemArraysSplit(items);
      SavedSumStep(first, orderId, ItemArrays(items));
      var last := items[n];
      assert last.unitPrice % UnitsPerCent == 0;
      SavedLineTotal(last, first + n, orderId);
    }
  }

  lemma ItemArraysSplit(items: seq<OrderItemDto>)
    requires items != []
    ensures ItemArrays(items)[..|items| - 1] == ItemArrays(items[..|items| - 1])
    ensures ItemArrays(items)[|items| - 1] == items[|items| - 1].ToArray()
  {
  }

  lemma SavedSumStep(first: nat, orderId: string, arrays: seq<ItemArray>)
    requires arrays != []
    ensures var n := |arrays| - 1;
            SumTotalPrices(SavedRows(first, orderId, arrays))
              == SumTotalPrices(SavedRows(first, orderId, arrays[..n])) + SavedRow(first + n, orderId, arrays[n]).totalPrice
  {
    var n := |arrays| - 1;
    SumTotalPricesAppend(SavedRows(first, orderId, arrays[..n]), SavedRow(first + n, orderId, arrays[n]));
  }

  /** One item: the saved total is in whole cents, so the cast that reads it back
      changes nothing, and it is the DTO's line total when the unit price is in
      whole cents. */
  lemma SavedLineTotal(item: OrderItemDto, id: nat, orderId: string)
    ensures var saved := SavedRow(id, orderId, item.ToArray()).totalPrice;
            && Decimal2(saved) == saved
            && (item.unitPrice % UnitsPerCent == 0 ==> saved == item.CalculateTotalPrice())
  {
    if item.unitPrice % UnitsPerCent == 0 {
      WholeCentsScale(item.quantity, item.unitPrice);
      RoundCentsOfWholeCents(item.quantity * item.unitPrice);
    }
  }

  /** The divergence on a concrete order: one item 3 x 0.3333 is stored with
      subtotal and total 1.00, while the saved item's total, and so the Order
      model's recomputed subtotal, is 3 x 0.33 = 0.99. */
  lemma StoredAndRecomputedSubtotalDiffer()
    ensures var dto := CreateOrderDto("Cliente", [OrderItemDto("Produto", 3, 3333)], None, None, None);
            var rows := SavedRows(1, "pedido", ItemArrays(dto.items));
            && Subtotal(dto) == 10000 && CreateOrderDtos.CalculateTotal(dto) == 10000
            && SumTotalPrices(rows) == 9900
  {
    var items := [OrderItemDto("Produto", 3, 3333)];
    StoredSubtotalOfThirds(items);
    SavedSumOfThirds(items);
  }

  lemma StoredSubtotalOfThirds(items: seq<OrderItemDto>)
    requires items == [OrderItemDto("Produto", 3, 3333)]
    ensures var dto := CreateOrderDto("Cliente", items, None, None, None);
            Subtotal(dto) == 10000 && CreateOrderDtos.CalculateTotal(dto) == 10000
  {
    assert items[..0] == [];
    assert SumLineTotals(items) == 10000;
  }

  lemma SavedSumOfThirds(items: seq<OrderItemDto>)
    requires items == [OrderItemDto("Produto", 3, 3333)]
    ensures SumTotalPrices(SavedRows(1, "pedido", ItemArrays(items))) == 9900
  {
    var arrays := ItemArrays(items);
    assert arrays == [items[0].ToArray()];
    assert arrays[..0] == [];
    var rows := SavedRows(1, "pedido", arrays);
    assert rows == [SavedRow(1, "pedido", arrays[0])];
    assert Decimal2(3333) == 3300;
    assert rows[0].totalPrice == 9900;
    assert Decimal2(9900) == 9900;
    assert rows[..0] == [];
    assert SumTotalPrices(rows) == SumTotalPrices([]) + Decimal2(rows[0].totalPrice);
  }

  // ---------------------------------------------------------------------------
  // The service

  /** Why `createOrder` stopped: the DTO's validation error, or an id collision
      raised by the insert. */
  datatype CreateError = Invalid(error: ValidationError) | Duplicate(key: DuplicateKey)

  /** Why `updateStatus` stopped. */
  datatype UpdateError = OrderNotFound(notFound: NotFound) | Transition(exception: InvalidStatusTransition)

  class OrderService {
    const repository: OrderRepository
    const audit: AuditLogTable

    constructor (repository: OrderRepository, audit: AuditLogTable)
      ensures this.repository == repository && this.audit == audit
    {
      this.repository := repository;
      this.audit := audit;
    }

    ghost predicate Valid()
      reads repository, audit
    {
      repository.Valid() && audit.Valid()
    }

    /** `listOrders`: the repository's offset listing, counting every filtered
        order and holding at most `perPage` of them. */
    function ListOrders(filters: Filters, perPage: int, page: int): (r: Paginator)
      reads repository
      requires 1 <= perPage <= 100
      ensures r.total == |Query(repository.orders, repository.items, filters, None)|
      ensures r.perPage == perPage && r.currentPage == PageNumber(page) && |r.data| <= perPage
    {
      Paginate(repository.orders, repository.items, filters, perPage, page)
    }

    /** `listOrdersWithCursor` over the current tables: at most `limit` stored
        orders that pass the filters, in listing order. */
    function ListOrdersWithCursor(cursor: CursorToken, limit: int, filters: Filters): (r: CursorPage)
      reads repository
      requires 1 <= limit <= 100
      ensures |r.data| <= limit && SortedDesc(r.data)
      ensures forall v :: v in r.data ==> v in Views(repository.orders, repository.items) && MatchesFilters(v.order, filters)
    {
      PageBounds(repository.orders, repository.items, cursor, limit, filters);
      CursorListing(repository.orders, repository.items, cursor, limit, filters)
    }

    /** `getOrder`: the stored order, or not-found. */
    method GetOrder(id: string) returns (r: Result<OrderView, NotFound>)
      requires Valid()
      modifies repository
      ensures Valid()
      ensures r.Success? <==> Load(repository.orders, repository.items, id).Some?
      ensures r.Success? ==> Load(repository.orders, repository.items, id) == Some(r.value)
      ensures r.Failure? ==> r.error == NotFound(id) && repository.cache == old(repository.cache)
      ensures repository.orders == old(repository.orders) && repository.items == old(repository.items)
      ensures repository.nextItemId == old(repository.nextItemId)
      ensures r.Success? && CacheKey(id) !in old(repository.cache) ==> repository.cache == old(repository.cache)[CacheKey(id) := r.value]
      ensures CacheKey(id) in old(repository.cache) ==> repository.cache == old(repository.cache)
    {
      r := repository.FindOrFail(id);
    }

    /** The state a successful `createOrder` leaves behind, from the tables, cache
        and log it started with: the draft row, its items as saved, the order's
        cache key cleared, and one 'created' record holding the reloaded order. */
    ghost predicate Created(dto: CreateOrderDto, newId: string, ip: Option<string>, ua: Option<string>, now: int,
                            orders0: seq<OrderRow>, items0: seq<ItemRow>, nextItemId0: nat,
                            cache0: map<string, OrderView>, records0: seq<AuditRecord>, v: OrderView)
      reads repository, audit
    {
      var row := NewRow(newId, CreationFill(dto), now);
      var saved := SavedRows(nextItemId0, newId, ItemArrays(dto.items));
      && repository.orders == orders0 + [row]
      && repository.items == items0 + saved
      && repository.nextItemId == nextItemId0 + |dto.items|
      && v == OrderView(row, saved)
      && Load(repository.orders, repository.items, newId) == Some(v)
      && repository.cache == cache0 - {CacheKey(newId)}
      && audit.records == records0 + [CreationRecord(|records0| + 1, v, ip, ua, now)]
    }

    /** `createOrder`: validation first; then, in one transaction, the draft order
        with the DTO's subtotal and total, its items through the saving hook, and
        one 'created' record. An invalid DTO or a colliding id writes nothing. */
    method CreateOrder(dto: CreateOrderDto, newId: string, ip: Option<string>, ua: Option<string>, now: int)
      returns (r: Result<OrderView, CreateError>)
      requires Valid()
      modifies repository, audit
      ensures Valid()
      ensures ValidationOutcome(dto).Fail? ==> r == Failure(Invalid(ValidationOutcome(dto).error))
      ensures ValidOrder(dto) && IndexOf(old(repository.orders), newId).Some? ==> r == Failure(Duplicate(DuplicateKey(newId)))
      ensures r.Failure? ==>
                && repository.orders == old(repository.orders) && repository.items == old(repository.items)
                && repository.nextItemId == old(repository.nextItemId)
                && repository.cache == old(repository.cache) && audit.records == old(audit.records)
      ensures r.Success? <==> ValidOrder(dto) && IndexOf(old(repository.orders), newId).None?
      ensures r.Success? ==>
                var row := NewRow(newId, CreationFill(dto), now);
                row.status == Draft && row.subtotal == Subtotal(dto) && row.total == CreateOrderDtos.CalculateTotal(dto)
      ensures r.Success? ==>
                Created(dto, newId, ip, ua, now, old(repository.orders), old(repository.items),
                        old(repository.nextItemId), old(repository.cache), old(audit.records), r.value)
    {
      var outcome := CreateOrderDtos.Validate(dto);
      if outcome.Fail? {
        return Failure(Invalid(outcome.error));
      }
      r := CreateInTransaction(dto, newId, ip, ua, now);
    }

    /** The transaction of `createOrder`: the order row, its items and the
        'created' record, or, on an id collision, nothing at all. */
    method CreateInTransaction(dto: CreateOrderDto, newId: string, ip: Option<string>, ua: Option<string>, now: int)
      returns (r: Result<OrderView, CreateError>)
      requires Valid()
      modifies repository, audit
      ensures Valid()
      ensures r.Failure? <==> IndexOf(old(repository.orders), newId).Some?
      ensures r.Failure? ==>
                && r == Failure(Duplicate(DuplicateKey(newId)))
                && repository.orders == old(repository.orders) && repository.items == old(repository.items)
                && repository.nextItemId == old(repository.nextItemId)
                && repository.cache == old(repository.cache) && audit.records == old(audit.records)
      ensures r.Success? ==>
                Created(dto, newId, ip, ua, now, old(repository.orders), old(repository.items),
                        old(repository.nextItemId), old(repository.cache), old(audit.records), r.value)
    {
      var created := InsertOrder(dto, newId, now);
      if created.Failure? {
        return Failure(Duplicate(created.error));
      }
      var order := AttachItems(created.value, dto.items, ip, ua, now);
      r := Success(order);
    }

    /** The rest of `createOrder`'s transaction: the items of the new order, then
        its 'created' record with the order as reloaded. */
    method AttachItems(row: OrderRow, items: seq<OrderItemDto>, ip: Option<string>, ua: Option<string>, now: int)
      returns (order: OrderView)
      requires Valid()
      requires FindRow(repository.orders, row.id) == Some(row) && ItemsOf(repository.items, row.id) == []
      requires CacheKey(row.id) !in repository.cache
      modifies repository, audit
      ensures Valid()
      ensures order == OrderView(row, SavedRows(old(repository.nextItemId), row.id, ItemArrays(items)))
      ensures repository.orders == old(repository.orders)
      ensures repository.items == old(repository.items) + order.items
      ensures repository.nextItemId == old(repository.nextItemId) + |items|
      ensures repository.cache == old(repository.cache)
      ensures Load(repository.orders, repository.items, row.id) == Some(order)
      ensures audit.records == old(audit.records) + [CreationRecord(old(audit.NextId()), order, ip, ua, now)]
    {
      var itemsData := ItemsData(items);
      order := repository.AddItems(row, itemsData);
      assert [] + order.items == order.items;
      ClearAbsentKey(old(repository.cache), CacheKey(row.id));
      var _ := audit.LogCreation(order, ip, ua, now);
    }

    /** The first write of `createOrder`'s transaction: the order row built from
        the DTO's attributes and its computed subtotal and total. */
    method InsertOrder(dto: CreateOrderDto, newId: string, now: int) returns (r: Result<OrderRow, DuplicateKey>)
      requires repository.Valid()
      modifies repository
      ensures repository.Valid()
      ensures r.Failure? <==> IndexOf(old(repository.orders), newId).Some?
      ensures r.Failure? ==> r.error == DuplicateKey(newId) && repository.orders == old(repository.orders)
                             && repository.cache == old(repository.cache)
      ensures r.Success? ==>
                && r.value == NewRow(newId, CreationFill(dto), now)
                && repository.orders == old(repository.orders) + [r.value]
                && repository.cache == old(repository.cache) - {CacheKey(newId)}
                && FindRow(repository.orders, newId) == Some(r.value)
                && ItemsOf(repository.items, newId) == []
      ensures repository.items == old(repository.items) && repository.nextItemId == old(repository.nextItemId)
    {
      var data := CreateOrderDtos.ToArray(dto);
      var subtotal := CreateOrderDtos.CalculateSubtotal(dto);
      var total := CreateOrderDtos.CalculateTotal(dto);
      var fill := OrderFill(data.customerName, Some(data.status), Some(subtotal), Some(data.discount), Some(data.tax),
                            Some(total), data.notes);
      assert fill == CreationFill(dto);
      r := repository.Create(newId, fill, now);
      if r.Success? {
        NoItemsOfNewOrder(old(repository.orders), repository.items, repository.nextItemId, newId);
      }
    }

    /** The loop in `createOrder` that collects each item's `toArray`, in order. */
    static method ItemsData(items: seq<OrderItemDto>) returns (arrays: seq<ItemArray>)
      ensures arrays == ItemArrays(items)
    {
      arrays := [];
      var k := 0;
      while k < |items|
        invariant 0 <= k <= |items|
        invariant arrays == ItemArrays(items[..k])
      {
        assert items[..k + 1][..k] == items[..k];
        arrays := arrays + [items[k].ToArray()];
        k := k + 1;
      }
      assert items[..k] == items;
    }

    /** `updateStatus`: in one transaction, the order is found (or not-found), the
        transition is checked against the current status (or the exception is
        raised), then the status is stored and one 'status_changed' record with
        the old and new tokens is appended. A failure writes nothing. */
    method UpdateStatus(orderId: string, dto: UpdateStatusDto, ip: Option<string>, ua: Option<string>, now: int)
      returns (r: Result<OrderView, UpdateError>)
      requires Valid()
      modifies repository, audit
      ensures Valid()
      ensures var found := old(Load(repository.orders, repository.items, orderId));
              && (found.None? ==> r == Failure(OrderNotFound(NotFound(orderId))))
              && (found.Some? && !found.value.order.status.CanTransitionTo(dto.status) ==>
                    r == Failure(Transition(NewInvalidStatusTransition(found.value.order.status, dto.status))))
              && (r.Success? <==> found.Some? && found.value.order.status.CanTransitionTo(dto.status))
      ensures repository.nextItemId == old(repository.nextItemId)
      ensures r.Failure? ==>
                && repository.orders == old(repository.orders) && repository.items == old(repository.items)
                && audit.records == old(audit.records)
      ensures var found := old(Load(repository.orders, repository.items, orderId));
              (r.Failure? && found.Some? && CacheKey(orderId) !in old(repository.cache)) ==>
                repository.cache == old(repository.cache)[CacheKey(orderId) := found.value]
      ensures (r.Failure? && (CacheKey(orderId) in old(repository.cache) || old(Load(repository.orders, repository.items, orderId)).None?)) ==>
                repository.cache == old(repository.cache)
      ensures r.Success? ==>
                var before := old(Load(repository.orders, repository.items, orderId)).value.order;
                var i := IndexOf(old(repository.orders), orderId).value;
                && r.value.order == ApplyPatch(before, StatusPatch(dto.status), now)
                && r.value.order.status == dto.status && r.value.order.updatedAt == now
                && repository.orders == old(repository.orders)[i := r.value.order]
                && repository.items == old(repository.items)
                && Load(repository.orders, repository.items, orderId) == Some(r.value)
                && repository.cache == old(repository.cache) - {CacheKey(orderId)}
                && audit.records == old(audit.records) +
                     [StatusChangeRecord(old(audit.NextId()), r.value.order, before.status.Value(), dto.status.Value(), ip, ua, now)]
    {
      var found := repository.FindOrFail(orderId);
      if found.Failure? {
        return Failure(OrderNotFound(found.error));
      }
      var view := found.value;
      var oldStatus := view.order.status;
      var newStatus := dto.status;
      var model := new Order.Load(view);
      if !model.CanTransitionTo(newStatus) {
        return Failure(Transition(NewInvalidStatusTransition(oldStatus, newStatus)));
      }
      var updated := repository.Update(view.order, StatusPatch(newStatus), now);
      var _ := audit.LogStatusChange(updated.order, oldStatus.Value(), newStatus.Value(), ip, ua, now);
      r := Success(updated);
    }

    /** `deleteOrder`: in one transaction, the order is found (or not-found, with
        no record), one 'deleted' record with its current status is appended, and
        then it is soft-deleted. */
    method DeleteOrder(orderId: string, ip: Option<string>, ua: Option<string>, now: int) returns (r: Result<bool, NotFound>)
      requires Valid()
      modifies repository, audit
      ensures Valid()
      ensures var found := old(Load(repository.orders, repository.items, orderId));
              && (found.None? ==> r == Failure(NotFound(orderId)))
              && (found.Some? ==> r == Success(true))
      ensures repository.nextItemId == old(repository.nextItemId)
      ensures r.Failure? ==>
                && repository.orders == old(repository.orders) && repository.items == old(repository.items)
                && repository.cache == old(repository.cache) && audit.records == old(audit.records)
      ensures r.Success? ==>
                var before := old(Load(repository.orders, repository.items, orderId)).value.order;
                var i := IndexOf(old(repository.orders), orderId).value;
                && repository.orders == old(repository.orders)[i := before.(deletedAt := Some(now), updatedAt := now)]
                && repository.items == old(repository.items)
                && Load(repository.orders, repository.items, orderId).None?
                && repository.cache == old(repository.cache) - {CacheKey(orderId)}
                && audit.records == old(audit.records) + [DeletionRecord(old(audit.NextId()), before, ip, ua, now)]
    {
      var found := repository.FindOrFail(orderId);
      if found.Failure? {
        return Failure(found.error);
      }
      var view := found.value;
      var _ := audit.LogDeletion(view.order, ip, ua, now);
      var deleted := repository.Delete(view.order, now);
      r := Success(deleted);
    }

    /** `calculateOrderTotal`: `max(0, round(subtotal - discount + tax, 2))`, an
        absent discount or tax counting as 0. Zero exactly when the net amount is
        under half a cent, otherwise the net amount rounded to the cent with halves
        going up; so never negative, in whole cents, and within half a cent of the
        Order model's unrounded total. */
    static function CalculateOrderTotal(subtotal: Amount, discount: Option<Amount>, tax: Option<Amount>): (r: Amount)
      ensures r >= 0 && r % UnitsPerCent == 0
      ensures r == 0 <==> Net(subtotal, discount, tax) < 50
      ensures r != 0 ==> -50 < r - Net(subtotal, discount, tax) <= 50
      ensures -50 <= r - UnroundedTotal(subtotal, discount, tax) <= 50
      ensures Net(subtotal, discount, tax) % UnitsPerCent == 0 ==> r == UnroundedTotal(subtotal, discount, tax)
    {
      RoundedAndUnroundedTotals(subtotal, discount, tax);
      RoundedTotal(subtotal, discount, tax)
    }

    /** `isValidStatusTransition`: the enum's transition table. */
    static function IsValidStatusTransition(from: Status, to: Status): (r: bool)
      ensures r <==> to in from.AllowedTransitions()
      ensures r ==> to != from && to != Draft && !from.IsFinal()
    {
      from.CanTransitionTo(to)
    }
  }

  /** An id absent from the orders table has no items (every item belongs to a
      stored order). */
  lemma NoItemsOfNewOrder(orders: seq<OrderRow>, items: seq<ItemRow>, nextItemId: nat, id: string)
    requires ItemsBelong(orders, items, nextItemId) && IndexOf(orders, id).None?
    ensures ItemsOf(items, id) == []
  {
    ItemsOfNone(items, id);
  }

  /** The worked totals: (100, 10, 5) gives 95, (100, none, 10) gives 110,
      (100, 20, none) gives 80 and (50, 100, 10) is clamped to 0. */
  lemma CalculateOrderTotalExamples()
    ensures OrderService.CalculateOrderTotal(1000000, Some(100000), Some(50000)) == 950000
    ensures OrderService.CalculateOrderTotal(1000000, None, Some(100000)) == 1100000
    ensures OrderService.CalculateOrderTotal(1000000, Some(200000), None) == 800000
    ensures OrderService.CalculateOrderTotal(500000, Some(1000000), Some(100000)) == 0
  {
  }
}
