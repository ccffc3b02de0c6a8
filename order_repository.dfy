/** The order repository: the orders and order_items tables, the per-order read
    cache, the filtered and ordered listings and the keyset (cursor) query. */
module OrderRepositoryModel {
  import opened Common
  import opened Text
  import opened OrderStatusEnum
  import opened OrderItemDtos
  import opened OrderItemModel
  import opened OrderModel

  // ---------------------------------------------------------------------------
  // Tables and loads

  /** No two order rows share an id (the primary key). */
  predicate UniqueIds(orders: seq<OrderRow>)
  {
    forall i, j :: 0 <= i < j < |orders| ==> orders[i].id != orders[j].id
  }

  /** The position of the row with id `id`, soft-deleted or not. */
  function IndexOf(orders: seq<OrderRow>, id: string): (r: Option<nat>)
    ensures r.Some? ==> r.value < |orders| && orders[r.value].id == id
    ensures r.None? ==> forall i :: 0 <= i < |orders| ==> orders[i].id != id
    decreases |orders|
  {
    if orders == [] then None
    else if orders[|orders| - 1].id == id then Some(|orders| - 1)
    else IndexOf(orders[..|orders| - 1], id)
  }

  /** `Order::find(id)`: the row with that id unless it is soft-deleted. */
  function FindRow(orders: seq<OrderRow>, id: string): (r: Option<OrderRow>)
    ensures r.Some? ==> r.value in orders && r.value.id == id && r.value.deletedAt.None?
    ensures UniqueIds(orders) ==>
              (r.Some? <==> exists i :: 0 <= i < |orders| && orders[i].id == id && orders[i].deletedAt.None?)
  {
    match IndexOf(orders, id)
    case None => None
    case Some(i) => if orders[i].deletedAt.None? then Some(orders[i]) else None
  }

  /** The items of order `orderId`, in table order. */
  function ItemsOf(items: seq<ItemRow>, orderId: string): (r: seq<ItemRow>)
    ensures |r| <= |items|
    decreases |items|
  {
    if items == [] then []
    else
      var init := ItemsOf(items[..|items| - 1], orderId);
      var last := items[|items| - 1];
      if last.orderId == orderId then init + [last] else init
  }

  /** The items of an order are exactly the table's items that name it. */
  lemma {:induction false} ItemsOfMembers(items: seq<ItemRow>, orderId: string)
    ensures forall x :: x in ItemsOf(items, orderId) <==> x in items && x.orderId == orderId
    decreases |items|
  {
    if items != [] {
      var n := |items| - 1;
      ItemsOfMembers(items[..n], orderId);
      assert items == items[..n] + [items[n]];
    }
  }

  lemma ItemsOfAppend(items: seq<ItemRow>, x: ItemRow, orderId: string)
    ensures ItemsOf(items + [x], orderId) == if x.orderId == orderId then ItemsOf(items, orderId) + [x] else ItemsOf(items, orderId)
  {
    assert (items + [x])[..|items|] == items;
  }

  /** `Order::with('items')->find(id)`. */
  function Load(orders: seq<OrderRow>, items: seq<ItemRow>, id: string): (r: Option<OrderView>)
    ensures r.Some? <==> FindRow(orders, id).Some?
    ensures r.Some? ==> r.value.order == FindRow(orders, id).value && r.value.items == ItemsOf(items, id)
  {
    match FindRow(orders, id)
    case None => None
    case Some(row) => Some(OrderView(row, ItemsOf(items, id)))
  }

  /** Every live order with its items, in table order. */
  function Views(orders: seq<OrderRow>, items: seq<ItemRow>): (r: seq<OrderView>)
    ensures |r| <= |orders|
    decreases |orders|
  {
    if orders == [] then []
    else
      var init := Views(orders[..|orders| - 1], items);
      var last := orders[|orders| - 1];
      if last.deletedAt.None? then init + [OrderView(last, ItemsOf(items, last.id))] else init
  }

  /** The views are exactly the live orders, each with its items. */
  lemma {:induction false} ViewsMembers(orders: seq<OrderRow>, items: seq<ItemRow>)
    ensures forall v :: v in Views(orders, items) <==>
              v.order in orders && v.order.deletedAt.None? && v.items == ItemsOf(items, v.order.id)
    decreases |orders|
  {
    if orders != [] {
      var n := |orders| - 1;
      ViewsMembers(orders[..n], items);
      assert orders == orders[..n] + [orders[n]];
    }
  }

  /** Over a table with unique ids, a live order's view is its load, so two views
      with the same id are the same view. */
  lemma ViewIsLoad(orders: seq<OrderRow>, items: seq<ItemRow>, v: OrderView)
    requires UniqueIds(orders) && v in Views(orders, items)
    ensures Load(orders, items, v.order.id) == Some(v)
  {
    ViewsMembers(orders, items);
    var i :| 0 <= i < |orders| && orders[i] == v.order;
    var k := IndexOf(orders, v.order.id).value;
    assert k == i;
  }

  lemma ViewsUniqueIds(orders: seq<OrderRow>, items: seq<ItemRow>, v: OrderView, w: OrderView)
    requires UniqueIds(orders) && v in Views(orders, items) && w in Views(orders, items)
    requires v.order.id == w.order.id
    ensures v == w
  {
    ViewIsLoad(orders, items, v);
    ViewIsLoad(orders, items, w);
  }

  // ---------------------------------------------------------------------------
  // Filters, cursors and the listings

  /** The request filters; each is absent or a string. */
  datatype Filters = Filters(status: Option<string>, customerName: Option<string>)

  /** `!empty($filters[key])`: the filter is applied. */
  predicate Applies(f: Option<string>)
  {
    f.Some? && !PhpEmpty(f.value)
  }

  predicate MatchesFilters(row: OrderRow, filters: Filters)
  {
    && (Applies(filters.status) ==> ByStatus(row, filters.status.value))
    && (Applies(filters.customerName) ==> ByCustomerName(row, filters.customerName.value))
  }

  /** A cursor token as the keyset query sees it once decoded: a falsy value
      (null, "" or "0"), a token that does not decode to a non-empty array, or the
      decoded array with its `created_at` and `id` entries when set. */
  datatype CursorToken = Falsy | Undecodable | Decoded(createdAt: Option<int>, id: Option<string>)

  /** The keyset position a complete cursor names. */
  datatype Cursor = Cursor(createdAt: int, id: string)

  /** Only a token that decodes with both keys set adds a condition. */
  function DecodeCursor(token: CursorToken): (r: Option<Cursor>)
    ensures r.Some? <==> token.Decoded? && token.createdAt.Some? && token.id.Some?
    ensures r.Some? ==> r.value == Cursor(token.createdAt.value, token.id.value)
  {
    match token
    case Decoded(Some(createdAt), Some(id)) => Some(Cursor(createdAt, id))
    case _ => None
  }

  /** The token the service hands out for the last row of a page. */
  function EncodeCursor(row: OrderRow): CursorToken
  {
    Decoded(Some(row.createdAt), Some(row.id))
  }

  lemma CursorRoundTrip(row: OrderRow)
    ensures DecodeCursor(EncodeCursor(row)) == Some(Cursor(row.createdAt, row.id))
  {
  }

  /** The keyset condition: strictly older, or as old with a smaller id. */
  predicate AfterCursor(row: OrderRow, c: Cursor)
  {
    row.createdAt < c.createdAt || (row.createdAt == c.createdAt && StrLess(row.id, c.id))
  }

  /** A row is after the cursor of `last` exactly when `last` precedes it in the
      listing order. */
  lemma AfterCursorIsPrecedes(row: OrderRow, last: OrderRow)
    ensures AfterCursor(row, Cursor(last.createdAt, last.id)) <==> Precedes(last, row)
  {
  }

  predicate Matches(row: OrderRow, filters: Filters, cursor: Option<Cursor>)
  {
    MatchesFilters(row, filters) && (cursor.Some? ==> AfterCursor(row, cursor.value))
  }

  /** The views that pass the filters and the cursor condition, in order. */
  function Matching(views: seq<OrderView>, filters: Filters, cursor: Option<Cursor>): (r: seq<OrderView>)
    ensures |r| <= |views|
    decreases |views|
  {
    if views == [] then []
    else
      var init := Matching(views[..|views| - 1], filters, cursor);
      var last := views[|views| - 1];
      if Matches(last.order, filters, cursor) then init + [last] else init
  }

  lemma {:induction false} MatchingMembers(views: seq<OrderView>, filters: Filters, cursor: Option<Cursor>)
    ensures forall v :: v in Matching(views, filters, cursor) <==> v in views && Matches(v.order, filters, cursor)
    decreases |views|
  {
    if views != [] {
      var n := |views| - 1;
      MatchingMembers(views[..n], filters, cursor);
      assert views == views[..n] + [views[n]];
    }
  }

  /** The filtered, cursor-restricted query ordered by `orderByCreatedDesc`. */
  function Query(orders: seq<OrderRow>, items: seq<ItemRow>, filters: Filters, cursor: Option<Cursor>): (r: seq<OrderView>)
    ensures SortedDesc(r)
    ensures forall v :: v in r <==> v in Views(orders, items) && Matches(v.order, filters, cursor)
  {
    var s := Matching(Views(orders, items), filters, cursor);
    var r := SortDesc(s);
    MatchingMembers(Views(orders, items), filters, cursor);
    SortDescPermutes(s);
    SortDescSorted(s);
    assert forall v :: v in r <==> v in multiset(r);
    assert forall v :: v in s <==> v in multiset(s);
    r
  }

  /** `limit(n)` as the query builder applies it: a negative count is ignored. */
  function Limit(s: seq<OrderView>, n: int): (r: seq<OrderView>)
    ensures 0 <= n ==> |r| <= n
    ensures 0 <= n < |s| ==> |r| == n
    ensures r <= s
    ensures n < 0 || |s| <= n ==> r == s
  {
    if 0 <= n < |s| then s[..n] else s
  }

  /** `findWithKeysetPagination`: the filtered query after the cursor, at most
      `limit + 1` rows. */
  function KeysetQuery(orders: seq<OrderRow>, items: seq<ItemRow>, token: CursorToken, limit: int, filters: Filters): (r: seq<OrderView>)
    ensures limit >= -1 ==> |r| <= limit + 1
    ensures SortedDesc(r)
    ensures forall v :: v in r ==> v in Views(orders, items) && MatchesFilters(v.order, filters)
    ensures DecodeCursor(token).Some? ==> forall v :: v in r ==> AfterCursor(v.order, DecodeCursor(token).value)
    ensures r <= Query(orders, items, filters, DecodeCursor(token))
  {
    Limit(Query(orders, items, filters, DecodeCursor(token)), limit + 1)
  }

  /** A token that is falsy, undecodable or incomplete yields the first page. */
  lemma MalformedCursorIsFirstPage(orders: seq<OrderRow>, items: seq<ItemRow>, token: CursorToken, limit: int, filters: Filters)
    requires !(token.Decoded? && token.createdAt.Some? && token.id.Some?)
    ensures KeysetQuery(orders, items, token, limit, filters) == KeysetQuery(orders, items, Falsy, limit, filters)
  {
  }

  /** `LengthAwarePaginator`: one page of rows and the total row count. */
  datatype Paginator = Paginator(data: seq<OrderView>, total: nat, perPage: nat, currentPage: nat)

  /** The page number the paginator resolves: a missing or invalid one reads as 1. */
  function PageNumber(page: int): (r: nat)
    ensures r >= 1 && (page >= 1 ==> r == page)
  {
    if page >= 1 then page else 1
  }

  /** The number of rows before page `current`. */
  function Offset(current: nat, perPage: nat): nat
    requires current >= 1
  {
    (current - 1) * perPage
  }

  /** `findAll`: page `page` of the filtered listing in `orderByCreatedDesc`
      order, `perPage` rows per page, with the total count. */
  function Paginate(orders: seq<OrderRow>, items: seq<ItemRow>, filters: Filters, perPage: nat, page: int): (r: Paginator)
    requires perPage >= 1
    ensures var all := Query(orders, items, filters, None);
            var offset := Offset(PageNumber(page), perPage);
            && r.total == |all| && r.perPage == perPage && r.currentPage == PageNumber(page)
            && |r.data| <= perPage
            && (offset <= |all| ==> r.data <= all[offset..])
            && (offset + perPage <= |all| ==> |r.data| == perPage)
            && (offset < |all| ==> |r.data| == (if offset + perPage <= |all| then perPage else |all| - offset))
            && (offset >= |all| ==> r.data == [])
  {
    var all := Query(orders, items, filters, None);
    var offset := Offset(PageNumber(page), perPage);
    var data := if offset <= |all| then Limit(all[offset..], perPage) else [];
    Paginator(data, |all|, perPage, PageNumber(page))
  }

  // ---------------------------------------------------------------------------
  // The cache and the repository's writes

  /** The cache key of an order. */
  function CacheKey(id: string): (k: string)
    ensures |k| == |id| + 6 && k[6..] == id
  {
    "order:" + id
  }

  /** Every cached entry is what a load would return now. */
  ghost predicate CacheCoherent(orders: seq<OrderRow>, items: seq<ItemRow>, cache: map<string, OrderView>)
  {
    forall id :: CacheKey(id) in cache ==> Load(orders, items, id) == Some(cache[CacheKey(id)])
  }

  /** `ModelNotFoundException` from `findOrFail`. */
  datatype NotFound = NotFound(id: string)
  {
    function Message(): string
    {
      "Pedido com ID " + id + " não encontrado."
    }
  }

  /** The primary-key violation an insert under an existing id raises. */
  datatype DuplicateKey = DuplicateKey(id: string)

  lemma IndexOfUnique(orders: seq<OrderRow>, i: nat, x: string)
    requires UniqueIds(orders) && i < |orders| && orders[i].id == x
    ensures IndexOf(orders, x) == Some(i)
  {
  }

  /** Replacing one row by a row with the same id keeps the keys unique and
      every id at its position. */
  lemma IndexOfAfterReplace(orders: seq<OrderRow>, i: nat, row: OrderRow, x: string)
    requires UniqueIds(orders) && i < |orders| && row.id == orders[i].id
    ensures UniqueIds(orders[i := row])
    ensures IndexOf(orders[i := row], x) == IndexOf(orders, x)
  {
    var updated := orders[i := row];
    match IndexOf(orders, x)
    case Some(k) =>
      IndexOfUnique(updated, k, x);
    case None =>
      assert IndexOf(updated, x).None?;
  }

  /** ... and changes no other order's load. */
  lemma LoadAfterReplace(orders: seq<OrderRow>, items: seq<ItemRow>, i: nat, row: OrderRow, x: string)
    requires UniqueIds(orders) && i < |orders| && row.id == orders[i].id && x != row.id
    ensures Load(orders[i := row], items, x) == Load(orders, items, x)
  {
    IndexOfAfterReplace(orders, i, row, x);
  }

  /** Every item belongs to a stored order and has an id below `nextItemId`. */
  predicate ItemsBelong(orders: seq<OrderRow>, items: seq<ItemRow>, nextItemId: nat)
  {
    forall i :: 0 <= i < |items| ==> IndexOf(orders, items[i].orderId).Some? && items[i].id < nextItemId
  }

  /** The cache agrees with the tables on every order but `id`. */
  ghost predicate CoherentExcept(orders: seq<OrderRow>, items: seq<ItemRow>, cache: map<string, OrderView>, id: string)
  {
    forall x :: x != id && CacheKey(x) in cache ==> Load(orders, items, x) == Some(cache[CacheKey(x)])
  }

  lemma IndexOfAppend(orders: seq<OrderRow>, row: OrderRow, x: string)
    ensures IndexOf(orders + [row], x) == if row.id == x then Some(|orders|) else IndexOf(orders, x)
  {
    assert (orders + [row])[..|orders|] == orders;
  }

  /** Inserting a row under a fresh id keeps the keys unique, keeps every item's
      order, finds the new row, and changes no other order's load. */
  lemma InsertKeepsState(orders: seq<OrderRow>, items: seq<ItemRow>, cache: map<string, OrderView>,
                         nextItemId: nat, row: OrderRow)
    requires UniqueIds(orders) && ItemsBelong(orders, items, nextItemId) && CacheCoherent(orders, items, cache)
    requires IndexOf(orders, row.id).None? && row.deletedAt.None?
    ensures UniqueIds(orders + [row])
    ensures ItemsBelong(orders + [row], items, nextItemId)
    ensures CoherentExcept(orders + [row], items, cache, row.id)
    ensures FindRow(orders + [row], row.id) == Some(row)
  {
    var grown := orders + [row];
    IndexOfAppend(orders, row, row.id);
    forall i | 0 <= i < |items|
      ensures IndexOf(grown, items[i].orderId).Some?
    {
      IndexOfAppend(orders, row, items[i].orderId);
    }
    forall x | x != row.id
      ensures Load(grown, items, x) == Load(orders, items, x)
    {
      IndexOfAppend(orders, row, x);
    }
  }

  /** Forgetting a key the cache does not hold changes nothing. */
  lemma ClearAbsentKey(cache: map<string, OrderView>, key: string)
    requires key !in cache
    ensures cache - {key} == cache
  {
  }

  lemma CoherentWithoutKey(orders: seq<OrderRow>, items: seq<ItemRow>, cache: map<string, OrderView>, id: string)
    requires CoherentExcept(orders, items, cache, id)
    ensures CacheCoherent(orders, items, cache - {CacheKey(id)})
  {
  }

  class OrderRepository {
    var orders: seq<OrderRow>
    var items: seq<ItemRow>
    var nextItemId: nat
    var cache: map<string, OrderView>

    /** Primary keys are unique, every item belongs to a stored order and has an
        id below the next one, and the cache agrees with the tables. */
    ghost predicate Valid()
      reads this
    {
      && UniqueIds(orders)
      && ItemsBelong(orders, items, nextItemId)
      && CacheCoherent(orders, items, cache)
    }

    constructor ()
      ensures Valid() && orders == [] && items == [] && cache == map[]
    {
      orders := [];
      items := [];
      nextItemId := 1;
      cache := map[];
    }

    /** `clearCache`: forgets exactly the key of order `id`. */
    method ClearCache(id: string)
      modifies this
      ensures cache == old(cache) - {CacheKey(id)}
      ensures orders == old(orders) && items == old(items) && nextItemId == old(nextItemId)
    {
      cache := cache - {CacheKey(id)};
    }

    /** `findById`: a cached order is served from the cache; otherwise the order is
        loaded and, when found, remembered under its key. Either way the result is
        the order as stored. */
    method FindById(id: string) returns (r: Option<OrderView>)
      requires Valid()
      modifies this
      ensures Valid()
      ensures r == Load(orders, items, id)
      ensures orders == old(orders) && items == old(items) && nextItemId == old(nextItemId)
      ensures CacheKey(id) in old(cache) ==> cache == old(cache)
      ensures CacheKey(id) !in old(cache) && r.Some? ==> cache == old(cache)[CacheKey(id) := r.value]
      ensures r.None? ==> cache == old(cache)
      ensures cache - {CacheKey(id)} == old(cache) - {CacheKey(id)}
    {
      var key := CacheKey(id);
      if key in cache {
        r := Some(cache[key]);
      } else {
        r := Load(orders, items, id);
        if r.Some? {
          assert cache[key := r.value] - {key} == cache - {key};
          cache := cache[key := r.value];
          forall x | CacheKey(x) in cache
            ensures Load(orders, items, x) == Some(cache[CacheKey(x)])
          {
            if CacheKey(x) == key {
              assert x == CacheKey(x)[6..] == key[6..] == id;
            }
          }
        }
      }
    }

    /** `findOrFail`: not-found exactly when `findById` finds nothing. */
    method FindOrFail(id: string) returns (r: Result<OrderView, NotFound>)
      requires Valid()
      modifies this
      ensures Valid()
      ensures r.Success? <==> Load(orders, items, id).Some?
      ensures r.Success? ==> Load(orders, items, id) == Some(r.value)
      ensures r.Failure? ==> r.error == NotFound(id) && cache == old(cache)
      ensures orders == old(orders) && items == old(items) && nextItemId == old(nextItemId)
      ensures r.Success? && CacheKey(id) !in old(cache) ==> cache == old(cache)[CacheKey(id) := r.value]
      ensures CacheKey(id) in old(cache) ==> cache == old(cache)
      ensures cache - {CacheKey(id)} == old(cache) - {CacheKey(id)}
    {
      var found := FindById(id);
      if found.None? {
        r := Failure(NotFound(id));
      } else {
        r := Success(found.value);
      }
    }

    /** `create`: inserts the new row under `id` with the model's defaults and
        clears its cache key; an id already in the table is rejected with nothing
        written. */
    method Create(id: string, fill: OrderFill, now: int) returns (r: Result<OrderRow, DuplicateKey>)
      requires Valid()
      modifies this
      ensures Valid()
      ensures r.Failure? <==> IndexOf(old(orders), id).Some?
      ensures r.Failure? ==> r.error == DuplicateKey(id) && orders == old(orders) && cache == old(cache)
      ensures r.Success? ==> r.value == NewRow(id, fill, now) && orders == old(orders) + [r.value]
      ensures r.Success? ==> cache == old(cache) - {CacheKey(id)} && FindRow(orders, id) == Some(r.value)
      ensures items == old(items) && nextItemId == old(nextItemId)
    {
      if IndexOf(orders, id).Some? {
        return Failure(DuplicateKey(id));
      }
      var row := NewRow(id, fill, now);
      InsertKeepsState(orders, items, cache, nextItemId, row);
      orders := orders + [row];
      ClearCache(id);
      CoherentWithoutKey(orders, items, old(cache), id);
      r := Success(row);
    }

    /** `update`: assigns `patch` to the stored order, clears its cache key, and
        returns the order reloaded with its items. */
    method Update(order: OrderRow, patch: OrderPatch, now: int) returns (r: OrderView)
      requires Valid() && FindRow(orders, order.id) == Some(order)
      modifies this
      ensures Valid()
      ensures IndexOf(old(orders), order.id).Some?
      ensures orders == old(orders)[IndexOf(old(orders), order.id).value := ApplyPatch(order, patch, now)]
      ensures items == old(items) && nextItemId == old(nextItemId)
      ensures cache == old(cache) - {CacheKey(order.id)}
      ensures r.order == ApplyPatch(order, patch, now) && r.items == ItemsOf(items, order.id)
      ensures Load(orders, items, order.id) == Some(r)
    {
      var i := IndexOf(orders, order.id).value;
      var row := ApplyPatch(order, patch, now);
      var before := orders;
      orders := orders[i := row];
      forall x
        ensures IndexOf(orders, x) == IndexOf(before, x)
      {
        IndexOfAfterReplace(before, i, row, x);
      }
      forall x | x != order.id
        ensures Load(orders, items, x) == Load(before, items, x)
      {
        LoadAfterReplace(before, items, i, row, x);
      }
      assert CoherentExcept(orders, items, cache, order.id);
      ClearCache(order.id);
      CoherentWithoutKey(orders, items, old(cache), order.id);
      r := Load(orders, items, order.id).value;
    }

    /** `delete`: clears the cache key and soft-deletes the order, stamping
        `deleted_at` and `updated_at`; its items stay. Always reports success. */
    method Delete(order: OrderRow, now: int) returns (r: bool)
      requires Valid() && FindRow(orders, order.id) == Some(order)
      modifies this
      ensures Valid()
      ensures r
      ensures IndexOf(old(orders), order.id).Some?
      ensures orders == old(orders)[IndexOf(old(orders), order.id).value := order.(deletedAt := Some(now), updatedAt := now)]
      ensures items == old(items) && nextItemId == old(nextItemId)
      ensures cache == old(cache) - {CacheKey(order.id)}
      ensures Load(orders, items, order.id).None?
    {
      ClearCache(order.id);
      var i := IndexOf(orders, order.id).value;
      var row := order.(deletedAt := Some(now), updatedAt := now);
      var before := orders;
      orders := orders[i := row];
      forall x
        ensures IndexOf(orders, x) == IndexOf(before, x)
      {
        IndexOfAfterReplace(before, i, row, x);
      }
      forall x | x != order.id
        ensures Load(orders, items, x) == Load(before, items, x)
      {
        LoadAfterReplace(before, items, i, row, x);
      }
      assert CoherentExcept(orders, items, old(cache), order.id);
      CoherentWithoutKey(orders, items, old(cache), order.id);
      r := true;
    }

    /** `addItems`: inserts one item per array, in order, under the order (each
        through the saving hook), clears the order's cache key and returns the
        order reloaded with its items. */
    method AddItems(order: OrderRow, arrays: seq<ItemArray>) returns (r: OrderView)
      requires Valid() && FindRow(orders, order.id) == Some(order)
      modifies this
      ensures Valid()
      ensures items == old(items) + SavedRows(old(nextItemId), order.id, arrays)
      ensures nextItemId == old(nextItemId) + |arrays|
      ensures orders == old(orders)
      ensures cache == old(cache) - {CacheKey(order.id)}
      ensures r.order == order && r.items == old(ItemsOf(items, order.id)) + SavedRows(old(nextItemId), order.id, arrays)
      ensures Load(orders, items, order.id) == Some(r)
    {
      var first := nextItemId;
      var rows := SaveItems(first, order.id, arrays);
      SavedRowsAt(first, order.id, arrays);
      AddBatchKeepsState(orders, items, cache, first, rows, order.id);
      items := items + rows;
      nextItemId := first + |arrays|;
      ClearCache(order.id);
      CoherentWithoutKey(orders, items, old(cache), order.id);
      r := Load(orders, items, order.id).value;
    }
  }

  /** The loop of `addItems`: one OrderItem per array, numbered from `first`, each
      put through its saving hook before it is stored. */
  method SaveItems(first: nat, orderId: string, arrays: seq<ItemArray>) returns (rows: seq<ItemRow>)
    ensures rows == SavedRows(first, orderId, arrays)
  {
    rows := [];
    var k := 0;
    while k < |arrays|
      invariant 0 <= k <= |arrays|
      invariant rows == SavedRows(first, orderId, arrays[..k])
    {
      var item := new OrderItem(first + k, orderId, arrays[k]);
      item.Saving();
      SavedRowsSnoc(first, orderId, arrays, k);
      rows := rows + [item.Row()];
      k := k + 1;
    }
    assert arrays[..k] == arrays;
  }

  lemma SavedRowsSnoc(first: nat, orderId: string, arrays: seq<ItemArray>, k: nat)
    requires k < |arrays|
    ensures SavedRows(first, orderId, arrays[..k + 1])
         == SavedRows(first, orderId, arrays[..k]) + [SavedRow(first + k, orderId, arrays[k])]
  {
    assert arrays[..k + 1][..k] == arrays[..k];
    assert arrays[..k + 1][k] == arrays[k];
  }

  lemma {:induction false} ItemsOfConcat(items: seq<ItemRow>, rows: seq<ItemRow>, id: string)
    ensures ItemsOf(items + rows, id) == ItemsOf(items, id) + ItemsOf(rows, id)
    decreases |rows|
  {
    if rows == [] {
      assert items + rows == items;
    } else {
      var n := |rows| - 1;
      ItemsOfConcat(items, rows[..n], id);
      SplitLast(items, rows);
      ItemsOfAppend(items + rows[..n], rows[n], id);
      ItemsOfAppend(rows[..n], rows[n], id);
    }
  }

  lemma SplitLast(items: seq<ItemRow>, rows: seq<ItemRow>)
    requires rows != []
    ensures rows == rows[..|rows| - 1] + [rows[|rows| - 1]]
    ensures items + rows == (items + rows[..|rows| - 1]) + [rows[|rows| - 1]]
  {
  }

  lemma {:induction false} ItemsOfAll(rows: seq<ItemRow>, id: string)
    requires forall i :: 0 <= i < |rows| ==> rows[i].orderId == id
    ensures ItemsOf(rows, id) == rows
    decreases |rows|
  {
    if rows != [] {
      var n := |rows| - 1;
      ItemsOfAll(rows[..n], id);
      assert rows == rows[..n] + [rows[n]];
      ItemsOfAppend(rows[..n], rows[n], id);
    }
  }

  lemma ItemsOfNone(rows: seq<ItemRow>, x: string)
    requires forall i :: 0 <= i < |rows| ==> rows[i].orderId != x
    ensures ItemsOf(rows, x) == []
  {
    ItemsOfMembers(rows, x);
  }

  /** A batch of rows of a stored order, with consecutive ids from `first`, keeps
      the items attached, is appended to that order's item list and changes no
      other order's load. */
  lemma AddBatchKeepsState(orders: seq<OrderRow>, items: seq<ItemRow>, cache: map<string, OrderView>,
                           first: nat, rows: seq<ItemRow>, id: string)
    requires ItemsBelong(orders, items, first) && CoherentExcept(orders, items, cache, id)
    requires IndexOf(orders, id).Some?
    requires forall i :: 0 <= i < |rows| ==> rows[i].orderId == id && rows[i].id == first + i
    ensures ItemsBelong(orders, items + rows, first + |rows|)
    ensures CoherentExcept(orders, items + rows, cache, id)
    ensures ItemsOf(items + rows, id) == ItemsOf(items, id) + rows
  {
    ItemsOfConcat(items, rows, id);
    ItemsOfAll(rows, id);
    forall x | x != id
      ensures Load(orders, items + rows, x) == Load(orders, items, x)
    {
      ItemsOfConcat(items, rows, x);
      ItemsOfNone(rows, x);
      assert ItemsOf(items, x) + [] == ItemsOf(items, x);
    }
  }
}
