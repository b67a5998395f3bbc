/**
  The order service: orders with their item rows, read with an ownership filter,
  created PENDING with one item row per requested item, and cancelled only by
  their owner while still PENDING. A commit is one atomic step: a failure rolls
  back everything the call added or changed.
 */
module Orders {
  import opened Wrappers
  import opened Seqs

  datatype OrderStatus = PENDING | CONFIRMED | CANCELLED

  /** A row of the `orders` table. */
  datatype Order = Order(id: string, customerId: string, status: OrderStatus)

  /** A row of the `order_items` table. */
  datatype OrderItem = OrderItem(id: string, orderId: string, sku: string, qty: int)

  /** One requested item of a create request. */
  datatype ItemPayload = ItemPayload(sku: string, qty: int)

  /** An order with its `items` relationship loaded. */
  datatype OrderView = OrderView(order: Order, items: seq<OrderItem>)

  datatype OrderError =
    | DatabaseError(message: string)  // raised by the session, re-raised after rollback
    | NotCancellable                  // the ValueError of a refused cancellation

  function Message(e: OrderError): string {
    match e
    case DatabaseError(m) => m
    case NotCancellable => "Order not found or cannot be cancelled"
  }

  /** Python truthiness of an optional user id: `None` and `""` are falsy. */
  predicate Truthy(userId: Option<string>) {
    userId.Some? && userId.value != ""
  }

  /** A truthy user id sees its own orders; a falsy one sees every order. */
  predicate Visible(o: Order, userId: Option<string>)
    ensures userId == Some(o.customerId) ==> Visible(o, userId)
    ensures userId.None? || userId == Some("") ==> Visible(o, userId)
  {
    !Truthy(userId) || o.customerId == userId.value
  }

  predicate UniqueIds(os: seq<Order>) {
    forall i, j :: 0 <= i < j < |os| ==> os[i].id != os[j].id
  }

  function IdsOf(os: seq<Order>): set<string> {
    set o | o in os :: o.id
  }

  /** The item rows of one order, in table order. */
  function ItemsOf(rows: seq<OrderItem>, orderId: string): (r: seq<OrderItem>)
    ensures forall x :: x in r <==> x in rows && x.orderId == orderId
  {
    Filter(rows, (x: OrderItem) => x.orderId == orderId)
  }

  /** The index of the first order satisfying `p`: what `.first()` returns. */
  function FirstIndex(os: seq<Order>, p: Order -> bool): (r: Option<nat>)
    ensures r.Some? ==> r.value < |os| && p(os[r.value]) && forall k :: 0 <= k < r.value ==> !p(os[k])
    ensures r.None? ==> forall k :: 0 <= k < |os| ==> !p(os[k])
  {
    if os == [] then None
    else if p(os[0]) then Some(0)
    else match FirstIndex(os[1..], p)
      case None => None
      case Some(k) => Some(k + 1)
  }

  function OrdersOf(vs: seq<OrderView>): (r: seq<Order>)
    ensures |r| == |vs|
  {
    if vs == [] then [] else [vs[0].order] + OrdersOf(vs[1..])
  }

  lemma {:induction false} OrdersOfAppend(a: seq<OrderView>, b: seq<OrderView>)
    ensures OrdersOf(a + b) == OrdersOf(a) + OrdersOf(b)
  {
    if a == [] {
      assert a + b == b;
    } else {
      assert (a + b)[1..] == a[1..] + b;
      OrdersOfAppend(a[1..], b);
    }
  }

  /** The rows of `os` that `userId` may see, each once, in table order: what the query returns. */
  function VisibleOrders(os: seq<Order>, userId: Option<string>): (r: seq<Order>)
    ensures forall o :: o in r <==> o in os && Visible(o, userId)
  {
    Filter(os, (o: Order) => Visible(o, userId))
  }

  /** The visible orders of `os`, in table order, each with its item rows. */
  function Views(os: seq<Order>, rows: seq<OrderItem>, userId: Option<string>): (r: seq<OrderView>)
    ensures forall v :: v in r <==> v.order in os && Visible(v.order, userId) && v.items == ItemsOf(rows, v.order.id)
    ensures OrdersOf(r) == VisibleOrders(os, userId)
    ensures !Truthy(userId) ==> OrdersOf(r) == os
  {
    if os == [] then []
    else
      var rest := Views(os[1..], rows, userId);
      var head := if Visible(os[0], userId) then [OrderView(os[0], ItemsOf(rows, os[0].id))] else [];
      assert forall o :: o in os <==> o == os[0] || o in os[1..];
      assert (head + rest)[|head|..] == rest;
      OrdersOfAppend(head, rest);
      head + rest
  }

  class OrderService {
    /** The `orders` table, in insertion order. */
    var orders: seq<Order>
    /** The `order_items` table, in insertion order. */
    var orderItems: seq<OrderItem>

    /** Order ids are a primary key and every item row points at an order. */
    ghost predicate Valid()
      reads this
    {
      && UniqueIds(orders)
      && (forall x :: x in orderItems ==> x.orderId in IdsOf(orders))
    }

    constructor ()
      ensures Valid() && orders == [] && orderItems == []
    {
      orders := [];
      orderItems := [];
    }

    /** The order with id `orderId` that `userId` may see, with its items, or nothing. */
    function GetOrderById(orderId: string, userId: Option<string>): (r: Option<OrderView>)
      reads this
      ensures r.Some? <==> exists o :: o in orders && o.id == orderId && Visible(o, userId)
      ensures r.Some? ==>
                && r.value.order in orders && r.value.order.id == orderId && Visible(r.value.order, userId)
                && r.value.items == ItemsOf(orderItems, orderId)
    {
      match FirstIndex(orders, (o: Order) => o.id == orderId && Visible(o, userId))
      case None => None
      case Some(k) => Some(OrderView(orders[k], ItemsOf(orderItems, orderId)))
    }

    /** The orders `userId` may see, in table order, each with its items. */
    function GetAllOrders(userId: Option<string>): (r: seq<OrderView>)
      reads this
      ensures forall v :: v in r <==> v.order in orders && Visible(v.order, userId) && v.items == ItemsOf(orderItems, v.order.id)
      ensures OrdersOf(r) == VisibleOrders(orders, userId)
      ensures !Truthy(userId) ==> OrdersOf(r) == orders
    {
      Views(orders, orderItems, userId)
    }

    /** Whether `cancel_order(orderId, userId)` finds its order: PENDING, with that id, owned by `userId`. */
    predicate Cancellable(orderId: string, userId: string)
      reads this
    {
      exists o :: o in orders && o.id == orderId && o.customerId == userId && o.status == PENDING
    }

    /**
      Adds a PENDING order owned by `userId` and, in payload order, one item row per
      requested item, linked to the new order. `newId` and `itemIds` are the generated
      UUIDs. A clash of `newId` with an existing order (the primary key) or a failing
      commit rolls back: nothing is added.
     */
    method CreateOrder(userId: string, payload: seq<ItemPayload>, newId: string, itemIds: seq<string>, commitErr: Option<string>)
      returns (r: Result<OrderView, OrderError>)
      requires Valid()
      requires |itemIds| == |payload|
      modifies this
      ensures Valid()
      ensures r.Err? <==> newId in old(IdsOf(orders)) || commitErr.Some?
      ensures r.Err? ==> orders == old(orders) && orderItems == old(orderItems)
      ensures r.Ok? ==>
                && r.value.order == Order(newId, userId, PENDING)
                && |r.value.items| == |payload|
                && (forall k :: 0 <= k < |payload| ==>
                      r.value.items[k] == OrderItem(itemIds[k], newId, payload[k].sku, payload[k].qty))
                && orders == old(orders) + [r.value.order]
                && orderItems == old(orderItems) + r.value.items
                && r.value.items == ItemsOf(orderItems, newId)
                && GetOrderById(newId, Some(userId)) == Some(r.value)
    {
      if newId in IdsOf(orders) {
        return Err(DatabaseError("duplicate key value violates unique constraint on orders.id"));
      }
      var order := Order(newId, userId, PENDING);
      var added: seq<OrderItem> := [];
      var i := 0;
      while i < |payload|
        invariant 0 <= i <= |payload|
        invariant |added| == i
        invariant forall k :: 0 <= k < i ==> added[k] == OrderItem(itemIds[k], newId, payload[k].sku, payload[k].qty)
      {
        added := added + [OrderItem(itemIds[i], newId, payload[i].sku, payload[i].qty)];
        i := i + 1;
      }
      if commitErr.Some? {
        return Err(DatabaseError(commitErr.value));
      }
      AppendOrder(orders, orderItems, order, added);
      orders := orders + [order];
      orderItems := orderItems + added;
      r := Ok(OrderView(order, added));
    }

    /**
      Cancels the caller's PENDING order `orderId`: its status becomes CANCELLED and
      it is returned with its items. Any other order, status or owner is refused with
      "Order not found or cannot be cancelled"; a failing commit rolls back. Only the
      status of that one order ever changes, and a cancelled order cannot be
      cancelled again.
     */
    method CancelOrder(orderId: string, userId: string, commitErr: Option<string>) returns (r: Result<OrderView, OrderError>)
      requires Valid()
      modifies this`orders
      ensures Valid()
      ensures !old(Cancellable(orderId, userId)) ==> r == Err(NotCancellable) && orders == old(orders)
      ensures old(Cancellable(orderId, userId)) && commitErr.Some? ==>
                r == Err(DatabaseError(commitErr.value)) && orders == old(orders)
      ensures old(Cancellable(orderId, userId)) && commitErr.None? ==>
                && r == Ok(OrderView(Order(orderId, userId, CANCELLED), ItemsOf(orderItems, orderId)))
                && |orders| == |old(orders)|
                && (forall k :: 0 <= k < |orders| ==>
                      orders[k] == if old(orders)[k].id == orderId then old(orders)[k].(status := CANCELLED) else old(orders)[k])
                && !Cancellable(orderId, userId)
    {
      var found := FirstIndex(orders, (o: Order) => o.id == orderId && o.customerId == userId && o.status == PENDING);
      if found.None? {
        return Err(NotCancellable);
      }
      if commitErr.Some? {
        return Err(DatabaseError(commitErr.value));
      }
      var k := found.value;
      var cancelled := orders[k].(status := CANCELLED);
      ghost var before := orders;
      orders := orders[k := cancelled];
      assert forall j :: 0 <= j < |orders| ==> orders[j].id == before[j].id;
      assert IdsOf(orders) == IdsOf(before) by {
        forall id | id in IdsOf(before) ensures id in IdsOf(orders) {
          var j :| 0 <= j < |before| && before[j].id == id;
          assert orders[j] in orders;
        }
      }
      r := Ok(OrderView(cancelled, ItemsOf(orderItems, orderId)));
    }
  }

  /**
    Appending a fresh order and item rows that all point at it keeps ids unique and
    every item row linked, and the new order's items are exactly the appended rows.
   */
  lemma AppendOrder(os: seq<Order>, rows: seq<OrderItem>, order: Order, added: seq<OrderItem>)
    requires UniqueIds(os) && (forall x :: x in rows ==> x.orderId in IdsOf(os))
    requires order.id !in IdsOf(os)
    requires forall x :: x in added ==> x.orderId == order.id
    ensures UniqueIds(os + [order])
    ensures forall x :: x in rows + added ==> x.orderId in IdsOf(os + [order])
    ensures ItemsOf(rows + added, order.id) == added
    ensures forall o :: o in os + [order] && o.id == order.id ==> o == order
  {
    var p := (x: OrderItem) => x.orderId == order.id;
    FilterNone(rows, p);
    FilterAppend(rows, added, p);
    FilterAll(added, p);
    assert IdsOf(os + [order]) == IdsOf(os) + {order.id};
    forall o | o in os ensures o.id != order.id {
      assert o.id in IdsOf(os);
    }
  }

  /** With unique ids, the order at index `k` is the only one with its id. */
  lemma OnlyOrderWithId(os: seq<Order>, k: nat)
    requires UniqueIds(os) && k < |os|
    ensures forall o :: o in os && o.id == os[k].id ==> o == os[k]
  {
  }

  /**
    Reading one order agrees with listing: the order `GetOrderById` returns is in
    `GetAllOrders` for the same user, and every listed order with that id is the
    one `GetOrderById` returns.
   */
  lemma GetOrderByIdAgreesWithGetAllOrders(svc: OrderService, orderId: string, userId: Option<string>)
    requires svc.Valid()
    ensures svc.GetOrderById(orderId, userId).Some? ==> svc.GetOrderById(orderId, userId).value in svc.GetAllOrders(userId)
    ensures forall v :: v in svc.GetAllOrders(userId) && v.order.id == orderId ==> svc.GetOrderById(orderId, userId) == Some(v)
  {
    forall v | v in svc.GetAllOrders(userId) && v.order.id == orderId
      ensures svc.GetOrderById(orderId, userId) == Some(v)
    {
      var r := svc.GetOrderById(orderId, userId);
      assert r.Some?;
      var i :| 0 <= i < |svc.orders| && svc.orders[i] == v.order;
      OnlyOrderWithId(svc.orders, i);
    }
  }
}
