/**
 The in-memory order store of the orders controller with the HTTP layer
 removed. The controller's `HashMap<String, Order>` is a `map<string, Order>`;
 each operation takes the map before the call and returns the map after it
 together with a typed result that stands for the response the controller sends.
 */
module OrderStore {
  import opened Models
  import opened Lifecycle
  import opened Pricing

  /** The registry of orders, keyed by order id. */
  type Store = map<string, Order>

  /** A Java reference that may be null. */
  datatype Option<T> = None | Some(value: T)

  /**
   The order in a create request, as the client sent it. The code overwrites
   `id`, `totalPrice` and `status`, and keeps `customerId` and `items`.
   */
  datatype OrderRequest = OrderRequest(id: Option<string>, customerId: string,
                                       items: Option<seq<Publication>>,
                                       totalPrice: Price, status: Option<OrderStatus>)

  /** What an operation answers: the order it returned, or the kind of failure. */
  datatype Result =
    | Ok(order: Order)
    | InvalidInput
    | NotFound
    | InvalidTransition(from: OrderStatus, to: OrderStatus)

  /** The store after an operation, and the operation's answer. */
  datatype Outcome = Outcome(store: Store, result: Result)

  // ---------------------------------------------------------------------------
  // Order ids

  predicate IsHexDigit(c: char)
  {
    '0' <= c <= '9' || 'a' <= c <= 'f'
  }

  /** The text of a `java.util.UUID`: 8-4-4-4-12 lower-case hex digits separated by dashes. */
  predicate IsUuidText(u: string)
  {
    && |u| == 36
    && forall i :: 0 <= i < |u| ==>
         if i == 8 || i == 13 || i == 18 || i == 23 then u[i] == '-' else IsHexDigit(u[i])
  }

  const IdPrefix: string := "ord-"

  /** An id the controller can generate: "ord-" followed by eight hex digits. */
  predicate IsOrderId(id: string)
  {
    && |id| == 12
    && id[..4] == IdPrefix
    && forall i :: 4 <= i < |id| ==> IsHexDigit(id[i])
  }

  /** The generated id: the prefix and the first eight characters of a random UUID's text. */
  function OrderIdFrom(uuid: string): (id: string)
    requires IsUuidText(uuid)
    ensures IsOrderId(id)
    ensures id[4..] == uuid[..8]
  {
    IdPrefix + uuid[..8]
  }

  // ---------------------------------------------------------------------------
  // Operations

  /**
   `createOrder`. A request whose items are null or empty is refused with
   InvalidInput. Otherwise the order gets the id generated from `uuid`, status
   PENDING and the left-fold total of its item prices, and is put in the store
   under its id. `put` replaces an order already stored under that id.
   */
  function CreateOrder(store: Store, request: OrderRequest, uuid: string): (out: Outcome)
    requires IsUuidText(uuid)
    ensures out.result.InvalidInput? <==> request.items.None? || |request.items.value| == 0
    ensures out.result.InvalidInput? ==> out.store == store
    ensures out.result.Ok? || out.result.InvalidInput?
    ensures out.result.Ok? ==>
              var o := out.result.order;
              && IsOrderId(o.id)
              && o.id[4..] == uuid[..8]
              && o.status == Pending
              && o.customerId == request.customerId
              && o.items == request.items.value
              && o.totalPrice == TotalPrice(request.items.value)
              && out.store.Keys == store.Keys + {o.id}
              && out.store[o.id] == o
              && (forall k :: k in store && k != o.id ==> out.store[k] == store[k])
  {
    if request.items.None? || |request.items.value| == 0 then
      Outcome(store, InvalidInput)
    else
      var id := OrderIdFrom(uuid);
      var items := request.items.value;
      var order := Order(id, request.customerId, items, TotalPrice(items), Pending);
      Outcome(store[id := order], Ok(order))
  }

  /** `getOrder`: the stored order, or NotFound. The store is not an output: nothing changes. */
  function GetOrder(store: Store, id: string): (r: Result)
    ensures r.Ok? <==> id in store
    ensures r.Ok? ==> r.order == store[id]
    ensures !r.Ok? ==> r == NotFound
  {
    if id in store then Ok(store[id]) else NotFound
  }

  /**
   `listOrders`: a copy of the stored orders, one per key. A `HashMap` promises
   no iteration order, so the loop takes the keys in an arbitrary order; the
   ghost `keys` records the order it took.
   */
  method ListOrders(store: Store) returns (list: seq<Order>, ghost keys: seq<string>)
    ensures |list| == |keys| == |store|
    ensures forall i :: 0 <= i < |keys| ==> keys[i] in store && list[i] == store[keys[i]]
    ensures forall i, j :: 0 <= i < j < |keys| ==> keys[i] != keys[j]
    ensures forall k :: k in store ==> k in keys
    ensures forall o :: o in list <==> o in store.Values
  {
    list, keys := [], [];
    var rest := store.Keys;
    while rest != {}
      invariant rest <= store.Keys
      invariant |list| == |keys|
      invariant forall i :: 0 <= i < |keys| ==> keys[i] in store && keys[i] !in rest && list[i] == store[keys[i]]
      invariant forall i, j :: 0 <= i < j < |keys| ==> keys[i] != keys[j]
      invariant forall k :: k in store ==> k in keys || k in rest
      invariant |keys| + |rest| == |store.Keys|
      decreases rest
    {
      var k :| k in rest;
      list, keys := list + [store[k]], keys + [k];
      rest := rest - {k};
    }
    assert forall o :: o in store.Values ==> o in list by {
      forall o | o in store.Values
        ensures o in list
      {
        var k :| k in store && store[k] == o;
        var i :| 0 <= i < |keys| && keys[i] == k;
        assert list[i] == o;
      }
    }
  }

  /** The store after `order`'s status has been set to `status`, nothing else changed. */
  ghost predicate OnlyStatusChanged(before: Store, after: Store, id: string, status: OrderStatus)
  {
    && after.Keys == before.Keys
    && id in before
    && after[id].status == status
    && SameExceptStatus(before[id], after[id])
    && forall k :: k in before && k != id ==> after[k] == before[k]
  }

  /**
   `updateOrderStatus`: NotFound for an unknown id; InvalidTransition(current,
   requested) when the transition predicate refuses the change; otherwise the
   order's status is set and the updated order returned.
   */
  function UpdateOrderStatus(store: Store, id: string, status: OrderStatus): (out: Outcome)
    ensures id !in store ==> out == Outcome(store, NotFound)
    ensures id in store && !IsValidStatusTransition(store[id].status, status) ==>
              out == Outcome(store, InvalidTransition(store[id].status, status))
    ensures out.result.Ok? <==> id in store && IsValidStatusTransition(store[id].status, status)
    ensures out.result.Ok? ==> OnlyStatusChanged(store, out.store, id, status) && out.result.order == out.store[id]
  {
    if id !in store then
      Outcome(store, NotFound)
    else
      var order := store[id];
      if !IsValidStatusTransition(order.status, status) then
        Outcome(store, InvalidTransition(order.status, status))
      else
        var updated := SetStatus(order, status);
        Outcome(store[id := updated], Ok(updated))
  }

  /**
   `cancelOrder`: NotFound for an unknown id; a DELIVERED order is refused;
   every other order, SHIPPED included, becomes CANCELLED. The transition
   predicate is not consulted.
   */
  function CancelOrder(store: Store, id: string): (out: Outcome)
    ensures id !in store ==> out == Outcome(store, NotFound)
    ensures id in store && store[id].status == Delivered ==>
              out == Outcome(store, InvalidTransition(Delivered, Cancelled))
    ensures out.result.Ok? <==> id in store && store[id].status != Delivered
    ensures out.result.Ok? ==> OnlyStatusChanged(store, out.store, id, Cancelled) && out.result.order == out.store[id]
  {
    if id !in store then
      Outcome(store, NotFound)
    else
      var order := store[id];
      if order.status == Delivered then
        Outcome(store, InvalidTransition(Delivered, Cancelled))
      else
        var updated := SetStatus(order, Cancelled);
        Outcome(store[id := updated], Ok(updated))
  }
}
