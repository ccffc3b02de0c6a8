# Orders management core, modelled in Dafny

This project models the order lifecycle of a Laravel orders-management service. It is written in Dafny and its properties are proved.

The model covers:

- **Order status enum.** `draft → pending → paid | cancelled` is a closed transition table. Each state has a label and a colour.
- **Transition exception.** It carries code 422 and a message that lists the legal next states.
- **Request DTOs.** There are three: update status, order item and create order. The model covers their parsing, their validation rules in source order, and their rounded line total, subtotal and total.
- **Eloquent models.** `Order` holds the default attributes, the total arithmetic over cast attributes, the query scopes and the `(created_at desc, id desc)` ordering. `OrderItem` holds the `saving` hook that recomputes `total_price`. `AuditLog` writes one record per creation, status change or deletion.
- **Order repository.** It is a class over the orders and order_items tables and the per-order read cache. It covers the offset listing, the keyset (cursor) query, and the writes (create, update, soft delete, add items), each of which clears the cache key.
- **Order service.** It covers the cursor listing, creation (validation, then one all-or-nothing transaction), guarded status changes, deletion, and the total calculator.

**Amounts.** Every amount is an integer count of 1/10000 of the currency unit, so one cent is 100 units.

- PHP's `round($x, 2)` is `Money.RoundCents`: halves round away from zero.
- An attribute cast `decimal:2` is read as `Money.Decimal2`, which rounds the same way.
- Units finer than the cent let a unit price with more than two decimals reach the code. There the DTO's `round(quantity * unit_price, 2)` and the `saving` hook's `quantity * (cast unit_price)` differ. `OrderItemModel.SavedTotalDiffersFromDto` shows this, and `OrderServiceModel.StoredAndRecomputedSubtotalDiffer` shows an order whose stored subtotal is not the sum of its stored items.

**Global state.** The tables, the cache and the audit log are fields of the `OrderRepository` and `AuditLogTable` classes. Every operation states the complete new state: the orders and items tables, the items' id counter, the cache and the audit log.

- **Invariants.** `OrderRepository.Valid` requires:
  - unique order ids;
  - every item belongs to a stored order and has an id below the next one;
  - every cached entry equals what a fresh load returns.
- **Failure paths.** Every failing service path leaves the tables and the audit log exactly as they were. The source gets this from its database transaction.

**Parameters.** UUIDs, the clock, the client IP and the user agent come in as parameters (`newId`, `now`, `ip`, `ua`).

## Model

| member | source | states |
|---|---|---|
| OrderStatusEnum.Status.Value | app/Enums/OrderStatus.php:12-15 | each case's backing string is one of `draft`, `pending`, `paid`, `cancelled` |
| OrderStatusEnum.Status.AllowedTransitions | app/Enums/OrderStatus.php:22-30 | at most two successors; none is the state itself or draft; no duplicates |
| OrderStatusEnum.Status.CanTransitionTo | app/Enums/OrderStatus.php:35-38 | allowed iff the target is in the table; an allowed move changes state, never returns to draft, and raises the lifecycle rank |
| OrderStatusEnum.Status.Label | app/Enums/OrderStatus.php:43-51 | every state has a non-empty display label |
| OrderStatusEnum.Status.Color | app/Enums/OrderStatus.php:56-64 | every colour is a `#rrggbb` hex colour |
| OrderStatusEnum.Status.IsFinal | app/Enums/OrderStatus.php:69-72 | final iff the state has no allowed transition |
| OrderStatusEnum.Values | app/Enums/OrderStatus.php:79-82 | the four backing strings in declaration order |
| OrderStatusEnum.TryFrom | app/Enums/OrderStatus.php:10-15 | succeeds iff the token is a backing string, and returns the case with that string |
| OrderStatusEnum.TransitionTable | app/Enums/OrderStatus.php:22-38 | the allowed pairs are exactly draft→pending, pending→paid and pending→cancelled |
| OrderStatusEnum.FinalIffStuck | app/Enums/OrderStatus.php:69-72 | `isFinal` holds iff no transition to any state is allowed |
| OrderStatusEnum.TryFromValue | app/Enums/OrderStatus.php:10-15 | `tryFrom(value)` round-trips every case |
| OrderStatusEnum.RunRaisesRank | app/Enums/OrderStatus.php:22-30 | along any chain of allowed transitions the rank strictly increases |
| OrderStatusEnum.RunsAreAcyclic | app/Enums/OrderStatus.php:22-30 | no chain of transitions revisits a state; chains have at most three states |
| OrderStatusEnum.LeavingDraft | app/Enums/OrderStatus.php:22-30 | from draft the only next state is pending, and no chain returns to draft |
| OrderStatusEnum.FinalStatesReachable | app/Enums/OrderStatus.php:25-26 | each final state is reached from draft through pending |
| OrderStatusEnum.LabelsAndColorsDistinct | app/Enums/OrderStatus.php:43-64 | distinct states have distinct labels and distinct colours |
| StatusTransitionErrors.AllowedValues | app/Exceptions/InvalidStatusTransitionException.php:18-21 | the backing strings of the allowed successors, in table order |
| StatusTransitionErrors.AllowedList | app/Exceptions/InvalidStatusTransitionException.php:27 | the list text is `nenhuma (estado final)` iff the source state is final, otherwise the successors joined by `, ` |
| StatusTransitionErrors.NewInvalidStatusTransition | app/Exceptions/InvalidStatusTransitionException.php:14-31 | keeps both states, code 422, and the templated message |
| StatusTransitionErrors.AllowedListOfDraft | app/Exceptions/InvalidStatusTransitionException.php:18-27 | a draft order lists `pending` |
| StatusTransitionErrors.AllowedListOfPending | app/Exceptions/InvalidStatusTransitionException.php:18-27 | a pending order lists `paid, cancelled` |
| StatusTransitionErrors.AllowedListOfFinal | app/Exceptions/InvalidStatusTransitionException.php:27 | paid and cancelled orders list `nenhuma (estado final)` |
| StatusTransitionErrors.MessageIdentifiesTransition | app/Exceptions/InvalidStatusTransitionException.php:23-28 | equal messages come from the same (from, to) pair: the message determines the transition |
| UpdateStatusDtos.FromArray | app/DTOs/UpdateStatusDTO.php:22-33 | success iff `status` is present and a backing string, with that status; otherwise the rejection message |
| UpdateStatusDtos.ValuesJoined | app/DTOs/UpdateStatusDTO.php:28 | the message lists `draft, pending, paid, cancelled` |
| UpdateStatusDtos.FromArrayRoundTrip | app/DTOs/UpdateStatusDTO.php:22-33 | every status survives the trip through its own token |
| UpdateStatusDtos.MissingStatusRejected | app/DTOs/UpdateStatusDTO.php:24-30 | a request without `status` is rejected |
| OrderItemDtos.ValidationError.Message | app/DTOs/OrderItemDTO.php:59-69 | every validation error has a non-empty message |
| OrderItemDtos.MessagesDistinct | app/DTOs/CreateOrderDTO.php:66-79 | distinct validation errors have distinct messages |
| OrderItemDtos.OrderItemDto.CalculateTotalPrice | app/DTOs/OrderItemDTO.php:47-50 | the line total is in whole cents, within half a cent of `quantity * unitPrice` |
| OrderItemDtos.OrderItemDto.ToArray | app/DTOs/OrderItemDTO.php:34-42 | the three fields unchanged plus the rounded line total |
| OrderItemDtos.OrderItemDto.Validate | app/DTOs/OrderItemDTO.php:57-70 | passes iff name non-empty, quantity ≥ 1 and price > 0; each failure iff the earlier rules pass and its own rule fails |
| OrderItemDtos.FromArray | app/DTOs/OrderItemDTO.php:22-29 | copies name, quantity and price; a supplied total is ignored |
| OrderItemDtos.ToArrayFromArrayRoundTrip | app/DTOs/OrderItemDTO.php:22-42 | `fromArray(toArray(dto)) == dto` |
| OrderItemDtos.ValidItemTotalNonNegative | app/DTOs/OrderItemDTO.php:47-70 | a valid item's line total is not negative |
| OrderItemDtos.LineTotalExamples | app/DTOs/OrderItemDTO.php:47-50 | 3 × 25.50 = 76.50, 3 × 9.99 = 29.97, and 2 × 10.00 gives total 20.00 |
| CreateOrderDtos.FromArray | app/DTOs/CreateOrderDTO.php:29-43 | scalar fields copied; item i is `OrderItemDTO::fromArray` of request item i; absent items give none |
| CreateOrderDtos.ToArray | app/DTOs/CreateOrderDTO.php:48-57 | status draft; a missing discount or tax becomes 0 |
| CreateOrderDtos.FirstItemFailure | app/DTOs/CreateOrderDTO.php:82-84 | passes iff every item passes; otherwise it is the error of the first failing item |
| CreateOrderDtos.ValidationOutcome | app/DTOs/CreateOrderDTO.php:64-85 | each order-level error iff all earlier rules pass and its rule fails; once they all pass, the first failing item's error (`FirstItemFailure`); passes iff `ValidOrder` |
| CreateOrderDtos.Validate | app/DTOs/CreateOrderDTO.php:64-85 | the loop returns exactly `ValidationOutcome` |
| CreateOrderDtos.SumLineTotals | app/DTOs/CreateOrderDTO.php:92-95 | the running sum of line totals is in whole cents |
| CreateOrderDtos.CalculateSubtotal | app/DTOs/CreateOrderDTO.php:90-97 | the accumulated, rounded subtotal, which equals the plain sum of line totals |
| CreateOrderDtos.CalculateTotal | app/DTOs/CreateOrderDTO.php:102-109 | non-negative whole cents; zero iff the net amount is under half a cent; otherwise within half a cent of it |
| CreateOrderDtos.ValidItemsSumNonNegative | app/DTOs/CreateOrderDTO.php:90-97 | valid items never sum to a negative subtotal |
| CreateOrderDtos.ValidOrderSubtotal | app/DTOs/CreateOrderDTO.php:64-97 | a valid order's subtotal is the unrounded sum and is not negative |
| CreateOrderDtos.OrderTotalExample | app/DTOs/CreateOrderDTO.php:90-109 | 2 × 50 + 1 × 100 with discount 10 and tax 5 gives subtotal 200 and total 195 |
| Money.RoundCents | app/DTOs/OrderItemDTO.php:49 | `round(x, 2)` is a whole cent within half a cent of x, with ties away from zero |
| Money.RoundCentsFixedPoints | app/DTOs/CreateOrderDTO.php:96 | rounding fixes exactly the whole-cent amounts |
| Money.RoundCentsMonotone | app/DTOs/CreateOrderDTO.php:96 | rounding never reorders amounts |
| Money.RoundCentsOdd | app/DTOs/CreateOrderDTO.php:96 | `round(-x) == -round(x)` |
| Money.RoundCentsIdempotent | app/DTOs/CreateOrderDTO.php:96 | rounding twice is rounding once |
| Money.Max0 | app/Services/OrderService.php:166 | `max(0, x)` is x or 0, and neither negative nor below x |
| Money.Decimal2 | app/Models/OrderItem.php:52-53 | a `decimal:2` read is the nearest whole cent to the stored value, an exact half cent going away from zero, and equals it iff it is in whole cents |
| Money.RoundedTotal | app/Services/OrderService.php:161-167 | non-negative whole cents; zero iff the net amount is under half a cent |
| Money.UnroundedTotal | app/Models/Order.php:126-133 | the net amount clamped at zero |
| Money.RoundedAndUnroundedTotals | app/Services/OrderService.php:161-167 | the service's total and the model's total differ by at most half a cent, and agree when the net amount is whole cents or negative |
| OrderItemModel.OrderItem.constructor | app/Models/OrderItem.php:35-41 | the fillable attributes are assigned from the array |
| OrderItemModel.OrderItem.CalculateTotalPrice | app/Models/OrderItem.php:70-73 | exactly quantity × the cast unit price, with no second rounding; so whole cents, within half a cent per unit of the exact product, and equal to the DTO's line total when the price is in whole cents |
| OrderItemModel.OrderItem.Saving | app/Models/OrderItem.php:78-85 | `total_price` becomes `calculateTotalPrice()` and nothing else changes |
| OrderItemModel.SavedRow | app/Models/OrderItem.php:78-85 | a saved row keeps the supplied fields and holds the recomputed, whole-cent total |
| OrderItemModel.SavedRows | app/Repositories/OrderRepository.php:106-108 | one saved row per array |
| OrderItemModel.SavedRowsAt | app/Repositories/OrderRepository.php:106-108 | row i is array i saved under id `first + i` |
| OrderItemModel.SavedRowIgnoresSuppliedTotal | app/Models/OrderItem.php:82-84 | a client-supplied `total_price` never reaches the table |
| OrderItemModel.SavedTotalDiffersFromDto | app/Models/OrderItem.php:70-73 | 3 × 0.3333: the DTO sends 1.00 and 0.99 is stored |
| OrderModel.NewRow | app/Models/Order.php:91-97 | `create` fills the given attributes; absent ones default to draft and 0; timestamps are set and the row is not deleted |
| OrderModel.ApplyPatch | app/Repositories/OrderRepository.php:86 | `update` assigns the patch and touches `updated_at` only if an attribute changed; id, notes, creation and deletion marks stay |
| OrderModel.SumTotalPrices | app/Models/Order.php:118-121 | the sum of the cast line totals is in whole cents |
| OrderModel.SumTotalPricesAppend | app/Models/Order.php:118-121 | the sum grows by the cast total of an appended item |
| OrderModel.SumOfNonNegativeTotals | app/Models/Order.php:118-121 | non-negative line totals give a non-negative subtotal |
| OrderModel.Order.constructor | app/Models/Order.php:91-97 | a new order is draft with every amount 0 |
| OrderModel.Order.Load | app/Repositories/OrderRepository.php:50 | the instance's attributes are the stored row and its items |
| OrderModel.Order.CalculateSubtotal | app/Models/Order.php:118-121 | whole cents; non-negative when no line total is negative |
| OrderModel.Order.CalculateTotal | app/Models/Order.php:126-133 | non-negative whole cents, equal to subtotal − discount + tax when that is not negative, otherwise 0 |
| OrderModel.Order.RecalculateTotals | app/Models/Order.php:138-144 | assigns the recomputed subtotal and total, leaves every other attribute, returns itself, and makes the totals consistent with the items |
| OrderModel.Order.CanTransitionTo | app/Models/Order.php:149-152 | delegates to the status's transition table |
| OrderModel.ByStatusExact | app/Models/Order.php:157-160 | filtering by a status's token selects exactly the orders in that status |
| OrderModel.ByCustomerNameMatchesInfix | app/Models/Order.php:165-168 | any name containing the filter text matches |
| OrderModel.ByCustomerNameHasInfix | app/Models/Order.php:165-168 | only a name containing the filter text matches, so the scope is exactly a substring test |
| OrderModel.PrecedesIrreflexive | app/Models/Order.php:173-176 | no order comes before itself in listing order |
| OrderModel.PrecedesTransitive | app/Models/Order.php:173-176 | listing order is transitive |
| OrderModel.PrecedesAsymmetric | app/Models/Order.php:173-176 | listing order is asymmetric |
| OrderModel.PrecedesTotal | app/Models/Order.php:173-176 | orders with distinct ids are always ordered one way or the other |
| OrderModel.SortDesc | app/Models/Order.php:173-176 | sorting keeps the length |
| OrderModel.SortDescPermutes | app/Models/Order.php:173-176 | sorting is a permutation |
| OrderModel.SortDescSorted | app/Models/Order.php:173-176 | the result is in `(created_at desc, id desc)` order |
| AuditLogModel.Action.Tag | app/Models/AuditLog.php:93 | the three actions have the tags `created`, `status_changed` and `deleted`, and each tag identifies its action |
| AuditLogModel.GetStatusValue | app/Models/AuditLog.php:73-84 | a string as given; an enum's backing value, which `tryFrom` maps back; otherwise the cast |
| AuditLogModel.GetStatusValueAgrees | app/Models/AuditLog.php:73-84 | an enum and its token give the same stored value |
| AuditLogModel.CreationRecord | app/Models/AuditLog.php:89-100 | action created, new value is the order's status, snapshot of the order, no old value |
| AuditLogModel.StatusChangeRecord | app/Models/AuditLog.php:105-121 | action status_changed with the old and new values as given, no snapshot |
| AuditLogModel.DeletionRecord | app/Models/AuditLog.php:126-136 | action deleted, old value is the current status, no new value |
| AuditLogModel.StatusChangeRecordReadsBack | app/Models/AuditLog.php:105-121 | both statuses of a status-change record can be read back |
| AuditLogModel.AuditLogTable.constructor | app/Models/AuditLog.php:33 | the log starts empty |
| AuditLogModel.AuditLogTable.LogCreation | app/Models/AuditLog.php:89-100 | appends exactly the creation record under the next id |
| AuditLogModel.AuditLogTable.LogStatusChange | app/Models/AuditLog.php:105-121 | appends exactly the status-change record under the next id |
| AuditLogModel.AuditLogTable.LogDeletion | app/Models/AuditLog.php:126-136 | appends exactly the deletion record under the next id |
| OrderRepositoryModel.IndexOf | app/Repositories/OrderRepository.php:50 | the position of the row with that id, or none when no row has it |
| OrderRepositoryModel.FindRow | app/Repositories/OrderRepository.php:50 | `find` returns a stored, non-deleted row with that id; over unique ids, found iff such a row exists |
| OrderRepositoryModel.ItemsOfMembers | app/Repositories/OrderRepository.php:50 | an order's loaded items are exactly the items that name it |
| OrderRepositoryModel.Load | app/Repositories/OrderRepository.php:50 | `with('items')->find` gives the found row with its items, or nothing |
| OrderRepositoryModel.ViewsMembers | app/Repositories/OrderRepository.php:28 | the listed orders are exactly the non-deleted ones, each with its items |
| OrderRepositoryModel.ViewIsLoad | app/Repositories/OrderRepository.php:28 | a listed order is what a load by its id returns |
| OrderRepositoryModel.DecodeCursor | app/Repositories/OrderRepository.php:132-134 | a cursor applies iff it decodes with both `created_at` and `id` |
| OrderRepositoryModel.CursorRoundTrip | app/Repositories/OrderRepository.php:132-134 | the cursor built for a row decodes to that row's key |
| OrderRepositoryModel.AfterCursorIsPrecedes | app/Repositories/OrderRepository.php:135-141 | a row passes the keyset condition iff the cursor row precedes it in listing order |
| OrderRepositoryModel.MatchingMembers | app/Repositories/OrderRepository.php:122-143 | the filtered rows are exactly those passing the filters and the cursor |
| OrderRepositoryModel.Query | app/Repositories/OrderRepository.php:118-145 | sorted in listing order, holding exactly the live orders that pass the filters and the cursor |
| OrderRepositoryModel.Limit | app/Repositories/OrderRepository.php:145 | the first n rows (all of them when fewer remain); a negative n is ignored |
| OrderRepositoryModel.KeysetQuery | app/Repositories/OrderRepository.php:118-146 | at most limit + 1 rows, sorted, each stored, passing the filters and after the cursor; a prefix of the full query |
| OrderRepositoryModel.MalformedCursorIsFirstPage | app/Repositories/OrderRepository.php:132-143 | a falsy, undecodable or incomplete cursor gives the first page |
| OrderRepositoryModel.PageNumber | app/Repositories/OrderRepository.php:39 | the resolved page is at least 1, and is the requested page when that is valid |
| OrderRepositoryModel.Paginate | app/Repositories/OrderRepository.php:26-40 | total is the number of filtered orders; the page is the rows from the page's offset on, `perPage` of them or as many as remain, and empty past the end |
| OrderRepositoryModel.CacheKey | app/Repositories/OrderRepository.php:47 | the key is `order:` followed by the id, so distinct ids have distinct keys |
| OrderRepositoryModel.LoadAfterReplace | app/Repositories/OrderRepository.php:84-90 | rewriting one order leaves every other order's load unchanged |
| OrderRepositoryModel.InsertKeepsState | app/Repositories/OrderRepository.php:73-79 | inserting under a fresh id keeps keys unique and items owned, finds the new row, and changes no other load |
| OrderRepositoryModel.AddBatchKeepsState | app/Repositories/OrderRepository.php:104-113 | appending items of one order keeps items owned, changes no other order's load, and extends that order's items |
| OrderRepositoryModel.OrderRepository.constructor | app/Repositories/OrderRepository.php:16-21 | empty tables and cache, satisfying the invariant |
| OrderRepositoryModel.OrderRepository.ClearCache | app/Repositories/OrderRepository.php:151-154 | forgets exactly that order's key; tables unchanged |
| OrderRepositoryModel.OrderRepository.FindById | app/Repositories/OrderRepository.php:45-52 | the result is always the order as stored; a miss that finds the order caches it; nothing else changes |
| OrderRepositoryModel.OrderRepository.FindOrFail | app/Repositories/OrderRepository.php:57-68 | not-found iff no live order has the id; otherwise the stored order |
| OrderRepositoryModel.OrderRepository.Create | app/Repositories/OrderRepository.php:73-79 | a duplicate id fails and writes nothing; otherwise appends the new row with defaults and clears its key |
| OrderRepositoryModel.OrderRepository.Update | app/Repositories/OrderRepository.php:84-90 | replaces only that row with the patched row, clears its key, and returns the reloaded order |
| OrderRepositoryModel.OrderRepository.Delete | app/Repositories/OrderRepository.php:95-99 | soft-deletes only that row, keeps its items, clears its key, reports true; the order no longer loads |
| OrderRepositoryModel.OrderRepository.AddItems | app/Repositories/OrderRepository.php:104-113 | appends the saved rows in order with consecutive ids, clears the key, and returns the order with old plus new items |
| OrderRepositoryModel.SaveItems | app/Repositories/OrderRepository.php:106-108 | the loop produces exactly the saved rows, each through the saving hook |
| OrderServiceModel.CursorListing | app/Services/OrderService.php:40-64 | the page is the first `limit` rows of the filtered listing after the cursor, and `has_more` holds iff more remain; `PageBounds`, `NextCursorNamesLast`, `PageCovers`, `NextPageCovers` and `ConsecutivePagesOrdered` state the rest |
| OrderServiceModel.OrderService.ListOrdersWithCursor | app/Services/OrderService.php:40-64 | over the current tables: at most `limit` stored orders that pass the filters, in listing order; the paging lemmas about `CursorListing` apply to it |
| OrderServiceModel.OrderService.ListOrders | app/Services/OrderService.php:32-35 | the repository's offset listing: the total counts every filtered order and the page holds at most `perPage`; `Paginate` pins the slice |
| OrderServiceModel.PageFrom | app/Services/OrderService.php:44-57 | `has_more` iff more than limit rows came back; the page is the first limit rows; the next cursor exists iff more rows remain and names the page's last row |
| OrderServiceModel.PageBounds | app/Services/OrderService.php:40-64 | a page has at most limit rows, in listing order, each stored, passing the filters and after the cursor; `has_more` means a full page with a cursor |
| OrderServiceModel.NextCursorNamesLast | app/Services/OrderService.php:50-57 | the next cursor decodes to the key of the page's last row |
| OrderServiceModel.ConsecutivePagesOrdered | app/Services/OrderService.php:40-64 | every row of the next page comes after every row of this page, so the pages share no order |
| OrderServiceModel.PageCovers | app/Services/OrderService.php:40-64 | a matching order is on the page, or after its last row with a next cursor to follow |
| OrderServiceModel.NextPageCovers | app/Services/OrderService.php:40-64 | an order after a page's last row is on the next page or after that page's last row |
| OrderServiceModel.OffsetAndCursorFirstPagesAgree | app/Services/OrderService.php:32-64 | the first offset page and the first cursor page hold the same rows |
| OrderServiceModel.ItemArrays | app/Services/OrderService.php:94-97 | element i is item i's `toArray`, one per item, in order |
| OrderServiceModel.CreationFill | app/Services/OrderService.php:86-88 | draft status, the DTO's fields, discount and tax defaulting to 0, and the DTO's subtotal and total |
| OrderServiceModel.SavedItemsSubtotalExact | app/Services/OrderService.php:86-99 | with whole-cent unit prices, the stored subtotal equals the sum of the saved item totals |
| OrderServiceModel.SavedLineTotal | app/Services/OrderService.php:94-99 | a saved total is whole cents, and equals the DTO's line total when the unit price is whole cents |
| OrderServiceModel.StoredAndRecomputedSubtotalDiffer | app/Services/OrderService.php:86-99 | one item 3 × 0.3333 stores subtotal 1.00 while its items sum to 0.99 |
| OrderServiceModel.OrderService.constructor | app/Services/OrderService.php:24-27 | binds the repository and the audit log |
| OrderServiceModel.OrderService.GetOrder | app/Services/OrderService.php:69-72 | the stored order, or not-found iff there is none; tables and item counter unchanged; the cache gains only this order's key, on a miss that finds the order |
| OrderServiceModel.OrderService.CreateOrder | app/Services/OrderService.php:79-106 | a validation error or duplicate id writes nothing (tables, item counter, cache, log); success iff valid and the id is fresh; on success a draft row with the DTO's subtotal and total, the saved items, the item counter advanced by the item count, the key cleared and one creation record |
| OrderServiceModel.OrderService.CreateInTransaction | app/Services/OrderService.php:84-105 | fails only on a duplicate id, with no write and the item counter unchanged; otherwise the whole creation, the counter advanced by the item count |
| OrderServiceModel.OrderService.InsertOrder | app/Services/OrderService.php:86-91 | the inserted row carries the DTO's attributes and computed totals |
| OrderServiceModel.OrderService.AttachItems | app/Services/OrderService.php:94-102 | adds the saved items, advances the item counter by their number, leaves the cache as it was, and logs one creation record with the reloaded order |
| OrderServiceModel.OrderService.ItemsData | app/Services/OrderService.php:94-97 | the loop produces each item's `toArray`, in order |
| OrderServiceModel.OrderService.UpdateStatus | app/Services/OrderService.php:113-140 | not-found or an invalid transition (the exception for that pair) writes no table or log, and the cache gains at most this order's key from the lookup; otherwise only that order's status changes, its key is cleared, and one record with the old and new tokens is logged; the item counter never changes |
| OrderServiceModel.OrderService.DeleteOrder | app/Services/OrderService.php:145-155 | not-found writes nothing; otherwise one deletion record with the current status, then the soft delete, reporting true; the item counter never changes |
| OrderServiceModel.OrderService.CalculateOrderTotal | app/Services/OrderService.php:161-167 | zero iff the net amount is under half a cent, otherwise the net rounded to the cent with halves going up; so within half a cent of the unrounded model total, and equal to it when the net amount is whole cents |
| OrderServiceModel.OrderService.IsValidStatusTransition | app/Services/OrderService.php:172-175 | exactly the enum's table; never to itself, to draft or out of a final state |
| OrderServiceModel.CalculateOrderTotalExamples | app/Services/OrderService.php:161-167 | (100, 10, 5) → 95; (100, –, 10) → 110; (100, 20, –) → 80; (50, 100, 10) → 0 |

## Left out

- **HTTP layer.** The controller, routes, form requests (including the 255-character and `min:0` rules), resources, the exception handler and `OrderValidationException` are boundary code outside this core.
- **Paging clamps.** The controller clamps `per_page` and `limit` to 1–100. The listing functions take this as a precondition.
- **Storage and database.** Migrations, factories and the repository interface are left out. Database failures after the first write of a transaction are not modelled. The transaction's isolation and row locking are not modelled: concurrency is out of scope.
- **Column rounding.** The `decimal(15,2)` columns round what is written to them. The model stores amounts as given and applies the rounding only where Eloquent reads an attribute through its `decimal:2` cast.
- **Floats and casts.**
  - Floats are not modelled: amounts are exact integers of 1/10000, so PHP's binary float error is not modelled.
  - PHP's `(int)` and `(float)` casts of request values happen before the DTO types.
  - A missing `customer_name` key in `CreateOrderDTO::fromArray`, and a missing `product_name`, `quantity` or `unit_price` key in `OrderItemDTO::fromArray`, are not modelled: the input types require these fields, so PHP's undefined-key warning and null value cannot arise.
- **Cursor encoding.** Base64, JSON and ISO-8601 text are abstracted. A cursor token is falsy, undecodable, or decoded with optional `created_at` and `id`, and timestamps are integers.
- **`LIKE` filter.** `LIKE` is modelled as plain substring containment, with no wildcard escaping and no collation or case folding.
- **Column collation.** Ids and status tokens are compared code point by code point (`StrLess`, `ByStatus`, `IndexOf`), whereas the database compares them under the column collation, which may be case-insensitive; the model assumes ids and tokens are written in one case, as the UUID generator and the enum produce them.
- **Cache.**
  - The TTL is not modelled: entries never expire.
  - Laravel's `Cache::remember` also stores a `null` result. Reading it back behaves like a miss, so the model does not cache misses.
  - The lookup in `UpdateStatus` may leave the order cached even when the transition is then refused, because the cache is not transactional. The contract states exactly this entry.
- **Identity and clock.** UUID generation, `now()`, the client IP and the user agent are parameters. Item ids are an auto-increment counter. Item timestamps are not modelled.
- **Audit snapshot.** The `changes` snapshot of a creation record is the loaded order itself, not its serialised array.
- **Notes.** `notes` is not part of an update patch, because no core operation updates it.
- OrderStatusEnum.Status.Label: states only that each label is non-empty, plus distinctness in `LabelsAndColorsDistinct`. The four literal labels are in its body.
- OrderItemDtos.ValidationError.Message: states only that each message is non-empty, plus distinctness in `MessagesDistinct`. The literal messages are in its body.
- OrderServiceModel.SavedItemsSubtotalExact: covers only whole-cent unit prices. For other prices no bound on the gap between the stored subtotal and the items' sum is proved. `StoredAndRecomputedSubtotalDiffer` shows that the gap exists.
