/**
 Properties that relate several store operations: the store invariant they
 keep, how stored orders may evolve, where cancelling and updating to
 CANCELLED part ways, and the end-to-end scenario of an order's life.
 */
module StoreProperties {
  import opened Models
  import opened Lifecycle
  import opened Pricing
  import opened OrderStore

  // ---------------------------------------------------------------------------
  // The store invariant

  /**
   Every stored order sits under its own id, which the controller generated;
   it has at least one item, and its total is the fold of its item prices.
   */
  ghost predicate IsWellFormed(store: Store)
  {
    forall k :: k in store ==>
      && store[k].id == k
      && IsOrderId(k)
      && |store[k].items| > 0
      && store[k].totalPrice == TotalPrice(store[k].items)
  }

  /** The empty store the controller starts with is well formed. */
  lemma EmptyStoreIsWellFormed()
    ensures IsWellFormed(map[])
  {
  }

  lemma CreatePreservesWellFormed(store: Store, request: OrderRequest, uuid: string)
    requires IsUuidText(uuid)
    requires IsWellFormed(store)
    ensures IsWellFormed(CreateOrder(store, request, uuid).store)
  {
  }

  lemma UpdatePreservesWellFormed(store: Store, id: string, status: OrderStatus)
    requires IsWellFormed(store)
    ensures IsWellFormed(UpdateOrderStatus(store, id, status).store)
  {
  }

  lemma CancelPreservesWellFormed(store: Store, id: string)
    requires IsWellFormed(store)
    ensures IsWellFormed(CancelOrder(store, id).store)
  {
  }

  // ---------------------------------------------------------------------------
  // Creating orders

  /** The id, total and status a client sends are overwritten: they cannot affect the outcome. */
  lemma CreateIgnoresClientFields(store: Store, request: OrderRequest, uuid: string,
                                  id: Option<string>, totalPrice: Price, status: Option<OrderStatus>)
    requires IsUuidText(uuid)
    ensures CreateOrder(store, request, uuid)
         == CreateOrder(store, request.(id := id, totalPrice := totalPrice, status := status), uuid)
  {
  }

  /** A created order can be read back at once under the id it was given. */
  lemma CreatedOrderCanBeRead(store: Store, request: OrderRequest, uuid: string)
    requires IsUuidText(uuid)
    ensures var out := CreateOrder(store, request, uuid);
            out.result.Ok? ==> GetOrder(out.store, out.result.order.id) == out.result
  {
  }

  /** With a fresh id the store gains exactly one order and keeps every other. */
  lemma CreateWithFreshIdGrowsStore(store: Store, request: OrderRequest, uuid: string)
    requires IsUuidText(uuid)
    requires OrderIdFrom(uuid) !in store
    ensures var out := CreateOrder(store, request, uuid);
            out.result.Ok? ==> |out.store| == |store| + 1 && Evolves(store, out.store)
  {
    var out := CreateOrder(store, request, uuid);
    if out.result.Ok? {
      assert out.store.Keys == store.Keys + {OrderIdFrom(uuid)};
    }
  }

  /**
   The code never checks the generated id against the store: when the first
   eight characters of a new UUID repeat a stored id, the stored order is
   replaced and the store does not grow.
   */
  lemma CreateWithRepeatedIdReplaces(store: Store, request: OrderRequest, uuid: string)
    requires IsUuidText(uuid)
    requires OrderIdFrom(uuid) in store
    requires request.items.Some? && |request.items.value| > 0
    ensures var out := CreateOrder(store, request, uuid);
            && |out.store| == |store|
            && out.store[OrderIdFrom(uuid)].status == Pending
            && out.store[OrderIdFrom(uuid)].items == request.items.value
  {
    assert CreateOrder(store, request, uuid).store.Keys == store.Keys;
  }

  // ---------------------------------------------------------------------------
  // How stored orders evolve

  /**
   Every order of `before` is still in `after`, with the same id, customer,
   items and total, and a status no earlier on the lifecycle.
   */
  ghost predicate Evolves(before: Store, after: Store)
  {
    forall k :: k in before ==>
      && k in after
      && SameExceptStatus(before[k], after[k])
      && Stage(before[k].status) <= Stage(after[k].status)
  }

  lemma UpdateEvolves(store: Store, id: string, status: OrderStatus)
    ensures Evolves(store, UpdateOrderStatus(store, id, status).store)
  {
    if id in store && IsValidStatusTransition(store[id].status, status) {
      TransitionsMoveForward(store[id].status, status);
    }
  }

  lemma CancelEvolves(store: Store, id: string)
    ensures Evolves(store, CancelOrder(store, id).store)
  {
  }

  /** Failures leave the store as it was. */
  lemma FailuresLeaveStoreUnchanged(store: Store, request: OrderRequest, uuid: string,
                                    id: string, status: OrderStatus)
    requires IsUuidText(uuid)
    ensures !CreateOrder(store, request, uuid).result.Ok? ==> CreateOrder(store, request, uuid).store == store
    ensures !UpdateOrderStatus(store, id, status).result.Ok? ==> UpdateOrderStatus(store, id, status).store == store
    ensures !CancelOrder(store, id).result.Ok? ==> CancelOrder(store, id).store == store
  {
  }

  // ---------------------------------------------------------------------------
  // Updating statuses

  /** Asking for the status an order already has succeeds and changes nothing. */
  lemma SameStatusUpdateIsNoOp(store: Store, id: string)
    requires id in store
    ensures UpdateOrderStatus(store, id, store[id].status) == Outcome(store, Ok(store[id]))
  {
    assert store[id := store[id]] == store;
  }

  /** A DELIVERED or CANCELLED order refuses every different status. */
  lemma TerminalOrdersAreFrozen(store: Store, id: string, status: OrderStatus)
    requires id in store
    requires store[id].status == Delivered || store[id].status == Cancelled
    requires status != store[id].status
    ensures UpdateOrderStatus(store, id, status) == Outcome(store, InvalidTransition(store[id].status, status))
  {
  }

  /** A PENDING order cannot skip SHIPPED. */
  lemma PendingCannotSkipShipping(store: Store, id: string)
    requires id in store && store[id].status == Pending
    ensures UpdateOrderStatus(store, id, Delivered) == Outcome(store, InvalidTransition(Pending, Delivered))
  {
  }

  // ---------------------------------------------------------------------------
  // Cancelling versus updating to CANCELLED

  /**
   On a SHIPPED order the two ways of cancelling disagree: `cancelOrder`
   cancels it, `updateOrderStatus(id, CANCELLED)` refuses.
   */
  lemma CancelDivergesFromUpdate(store: Store, id: string)
    requires id in store && store[id].status == Shipped
    ensures CancelOrder(store, id).result.Ok?
    ensures CancelOrder(store, id).store[id].status == Cancelled
    ensures UpdateOrderStatus(store, id, Cancelled) == Outcome(store, InvalidTransition(Shipped, Cancelled))
  {
  }

  /** SHIPPED is the only case where they disagree. */
  lemma CancelMatchesUpdateExceptWhenShipped(store: Store, id: string)
    ensures CancelOrder(store, id) == UpdateOrderStatus(store, id, Cancelled)
        <==> !(id in store && store[id].status == Shipped)
  {
    if id in store && store[id].status == Shipped {
      CancelDivergesFromUpdate(store, id);
    }
  }

  /**
   A concrete store on which the two disagree: the scenario's order, shipped.
   The store is well formed, so the controller can reach it.
   */
  lemma CancelDivergenceWitness()
    ensures var store := map[ScenarioId := Order(ScenarioId, "cust-789012", ScenarioItems, 2997, Shipped)];
            && IsWellFormed(store)
            && CancelOrder(store, ScenarioId) != UpdateOrderStatus(store, ScenarioId, Cancelled)
  {
    var store := map[ScenarioId := Order(ScenarioId, "cust-789012", ScenarioItems, 2997, Shipped)];
    ScenarioItemsTotal();
    assert IsOrderId(ScenarioId);
    CancelDivergesFromUpdate(store, ScenarioId);
  }

  // ---------------------------------------------------------------------------
  // An order's life from creation to delivery

  const ScenarioUuid: string := "123e4567-e89b-12d3-a456-426614174000"
  const ScenarioId: string := "ord-123e4567"
  const ScenarioItems: seq<Publication> :=
    [ Book("b-1", "Spring Boot in Action", "2023-06-15", 1999, "Craig Walls", "978-1617292545"),
      Magazine("m-1", "National Geographic", "2023-06-01", 998, 42, "National Geographic Society") ]
  const ScenarioRequest: OrderRequest := OrderRequest(None, "cust-789012", Some(ScenarioItems), 0, None)

  /** The scenario's items cost 19.99 + 9.98 = 29.97. */
  lemma ScenarioItemsTotal()
    ensures TotalPrice(ScenarioItems) == 2997
  {
    assert ScenarioItems[..1][..0] == [];
    assert ScenarioItems[..1] == [ScenarioItems[0]];
  }

  /**
   Create an order for 19.99 and 9.98: it is PENDING and costs 29.97. Ship it;
   moving it back to PENDING is refused; deliver it; cancelling is then refused.
   */
  lemma OrderLifeScenario()
    ensures var created := CreateOrder(map[], ScenarioRequest, ScenarioUuid);
            && created.result == Ok(Order(ScenarioId, "cust-789012", ScenarioItems, 2997, Pending))
            && var shipped := UpdateOrderStatus(created.store, ScenarioId, Shipped);
            && shipped.result.Ok? && shipped.result.order.status == Shipped
            && var back := UpdateOrderStatus(shipped.store, ScenarioId, Pending);
            && back == Outcome(shipped.store, InvalidTransition(Shipped, Pending))
            && var delivered := UpdateOrderStatus(back.store, ScenarioId, Delivered);
            && delivered.result.Ok? && delivered.result.order.status == Delivered
            && CancelOrder(delivered.store, ScenarioId) == Outcome(delivered.store, InvalidTransition(Delivered, Cancelled))
  {
    assert IsUuidText(ScenarioUuid);
    assert ScenarioUuid[..8] == "123e4567";
    assert OrderIdFrom(ScenarioUuid) == ScenarioId;
    ScenarioItemsTotal();
  }
}
