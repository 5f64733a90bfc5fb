/** `OrderServiceImpl.createOrder`: an order is built from a request, holding one item per
    requested item, its total Σ price × quantity in exact decimal arithmetic, and status
    "NEW"; every item points back at its order, and the order is saved. */
module OrderService {
  import opened Base
  import opened JavaInt

  /** One requested item; a null price is `None`. */
  datatype OrderItemRequest = OrderItemRequest(productId: Option<Uuid>, quantity: Int32, price: Option<real>)

  /** The request; a null item list, and a null element of it, are `None`. */
  datatype OrderRequest = OrderRequest(
    customerId: Option<Uuid>,
    items: Option<seq<Option<OrderItemRequest>>>,
    sellerId: Option<Uuid>,
    paymentStatus: Option<string>)

  /** Reading a null item list, mapping a null element or multiplying a null price throws. */
  datatype OrderError = NullPointer

  /** One item's price times its quantity, or nothing when its price is null. */
  function LinePrice(item: OrderItemRequest): Option<real> {
    match item.price
    case None => None
    case Some(p) => Some(p * (item.quantity as real))
  }

  /** The total as the stream computes it: the line prices added from zero, first to last;
      null as soon as one price is null. */
  function Total(items: seq<OrderItemRequest>): (t: Option<real>)
    ensures t.None? <==> exists i :: 0 <= i < |items| && items[i].price.None?
  {
    if items == [] then Some(0.0)
    else
      var init := items[..|items| - 1];
      var last := items[|items| - 1];
      assert forall i :: 0 <= i < |init| ==> init[i] == items[i];
      match (Total(init), LinePrice(last))
      case (Some(s), Some(l)) => Some(s + l)
      case _ => None
  }

  /** Σ price × quantity, summed from the back; a reference for the total. */
  function Sum(items: seq<OrderItemRequest>): real
    requires forall i :: 0 <= i < |items| ==> items[i].price.Some?
  {
    if items == [] then 0.0
    else items[0].price.value * (items[0].quantity as real) + Sum(items[1..])
  }

  lemma {:induction false} SumAppend(items: seq<OrderItemRequest>, x: OrderItemRequest)
    requires forall i :: 0 <= i < |items| ==> items[i].price.Some?
    requires x.price.Some?
    ensures Sum(items + [x]) == Sum(items) + x.price.value * (x.quantity as real)
  {
    if items != [] {
      assert (items + [x])[1..] == items[1..] + [x];
      SumAppend(items[1..], x);
    }
  }

  /** With every price known, the total is Σ price × quantity. */
  lemma {:induction false} TotalIsSum(items: seq<OrderItemRequest>)
    requires forall i :: 0 <= i < |items| ==> items[i].price.Some?
    ensures Total(items) == Some(Sum(items))
  {
    if items != [] {
      var init := items[..|items| - 1];
      var last := items[|items| - 1];
      TotalIsSum(init);
      SumAppend(init, last);
      assert init + [last] == items;
      assert LinePrice(last).Some? && LinePrice(last).value == last.price.value * (last.quantity as real);
    }
  }

  /** An order without items totals zero; appending an item adds exactly its price times
      its quantity. */
  lemma TotalAppend(items: seq<OrderItemRequest>, x: OrderItemRequest)
    requires Total(items).Some? && x.price.Some?
    ensures Total([]) == Some(0.0)
    ensures Total(items + [x]) == Some(Total(items).value + x.price.value * (x.quantity as real))
  {
    var all := items + [x];
    assert all[..|all| - 1] == items && all[|all| - 1] == x;
    assert LinePrice(x).Some? && LinePrice(x).value == x.price.value * (x.quantity as real);
  }

  /** One null price makes the whole total null. */
  lemma TotalNullAt(items: seq<OrderItemRequest>, k: nat)
    requires k < |items| && items[k].price.None?
    ensures Total(items).None?
  {
  }

  /** The item list holds no null element. */
  predicate NoNullItems(requested: seq<Option<OrderItemRequest>>) {
    forall i :: 0 <= i < |requested| ==> requested[i].Some?
  }

  /** The elements of a list without nulls. */
  function Present(requested: seq<Option<OrderItemRequest>>): (r: seq<OrderItemRequest>)
    requires NoNullItems(requested)
    ensures |r| == |requested|
    ensures forall i :: 0 <= i < |r| ==> requested[i] == Some(r[i])
  {
    if requested == [] then [] else [requested[0].value] + Present(requested[1..])
  }

  class OrderItem {
    var order: Order?
    var productId: Option<Uuid>
    var quantity: Int32
    var price: Option<real>

    /** `mapToOrderItem`: the item's product, quantity and price, with no order yet. */
    constructor (request: OrderItemRequest)
      ensures productId == request.productId && quantity == request.quantity && price == request.price
      ensures order == null
    {
      productId := request.productId;
      quantity := request.quantity;
      price := request.price;
      order := null;
    }

    /** The request this item copies. */
    function Request(): OrderItemRequest
      reads this
    {
      OrderItemRequest(productId, quantity, price)
    }
  }

  class Order {
    var customerId: Option<Uuid>
    var sellerId: Option<Uuid>
    var totalPrice: real
    var paymentStatus: Option<string>
    var orderStatus: string
    var createdAt: Time
    var updatedAt: Time
    var items: seq<OrderItem>

    /** The builder: the given fields, no items yet. */
    constructor (customerId: Option<Uuid>, sellerId: Option<Uuid>, paymentStatus: Option<string>,
                 orderStatus: string, createdAt: Time, updatedAt: Time, totalPrice: real)
      ensures this.customerId == customerId && this.sellerId == sellerId
      ensures this.paymentStatus == paymentStatus && this.orderStatus == orderStatus
      ensures this.createdAt == createdAt && this.updatedAt == updatedAt && this.totalPrice == totalPrice
      ensures items == []
    {
      this.customerId := customerId;
      this.sellerId := sellerId;
      this.paymentStatus := paymentStatus;
      this.orderStatus := orderStatus;
      this.createdAt := createdAt;
      this.updatedAt := updatedAt;
      this.totalPrice := totalPrice;
      items := [];
    }

    /** `setItems`: takes the list and points each item back at this order; nothing else
        about the items changes. */
    method SetItems(newItems: seq<OrderItem>)
      modifies this, set i | i in newItems
      ensures items == newItems
      ensures forall i :: i in newItems ==> i.order == this
      ensures forall i :: i in newItems ==> i.Request() == old(i.Request())
      ensures customerId == old(customerId) && sellerId == old(sellerId) && totalPrice == old(totalPrice)
      ensures paymentStatus == old(paymentStatus) && orderStatus == old(orderStatus)
      ensures createdAt == old(createdAt) && updatedAt == old(updatedAt)
    {
      items := newItems;
      var k := 0;
      while k < |newItems|
        invariant 0 <= k <= |newItems|
        invariant items == newItems
        invariant forall j :: 0 <= j < k ==> newItems[j].order == this
        invariant forall i :: i in newItems ==> i.Request() == old(i.Request())
        invariant customerId == old(customerId) && sellerId == old(sellerId) && totalPrice == old(totalPrice)
        invariant paymentStatus == old(paymentStatus) && orderStatus == old(orderStatus)
        invariant createdAt == old(createdAt) && updatedAt == old(updatedAt)
      {
        newItems[k].order := this;
        k := k + 1;
      }
    }
  }

  /** The mapping step of `createOrder`: one new item per requested item, in order; a null
      element makes the mapping throw, which `None` stands for. */
  method MapToOrderItems(requested: seq<Option<OrderItemRequest>>) returns (items: Option<seq<OrderItem>>)
    ensures items.None? <==> !NoNullItems(requested)
    ensures items.Some? ==> |items.value| == |requested|
    ensures items.Some? ==> forall i :: 0 <= i < |requested| ==>
      fresh(items.value[i]) && Some(items.value[i].Request()) == requested[i]
    ensures items.Some? ==> forall i, j :: 0 <= i < j < |requested| ==> items.value[i] != items.value[j]
  {
    var mapped: seq<OrderItem> := [];
    var k := 0;
    while k < |requested|
      invariant 0 <= k <= |requested| && |mapped| == k
      invariant forall i :: 0 <= i < k ==> fresh(mapped[i]) && Some(mapped[i].Request()) == requested[i]
      invariant forall i, j :: 0 <= i < j < k ==> mapped[i] != mapped[j]
    {
      if requested[k].None? {
        return None;
      }
      var item := new OrderItem(requested[k].value);
      mapped := mapped + [item];
      k := k + 1;
    }
    items := Some(mapped);
  }

  /** The totalling step of `createOrder` over the mapped items: it throws at the first null
      price, and otherwise yields the total of the requested items. */
  method TotalOf(items: seq<OrderItem>, ghost requested: seq<OrderItemRequest>) returns (total: Option<real>)
    requires |items| == |requested|
    requires forall i :: 0 <= i < |items| ==> items[i].Request() == requested[i]
    ensures total.None? <==> Total(requested).None?
    ensures total.Some? ==> total.value == Total(requested).value
  {
    var sum: real := 0.0;
    var k := 0;
    while k < |items|
      invariant 0 <= k <= |items|
      invariant Total(requested[..k]).Some? && Total(requested[..k]).value == sum
    {
      if items[k].price.None? {
        assert requested[k].price.None?;
        TotalNullAt(requested, k);
        return None;
      }
      assert requested[..k + 1] == requested[..k] + [requested[k]];
      TotalAppend(requested[..k], requested[k]);
      sum := sum + items[k].price.value * (items[k].quantity as real);
      k := k + 1;
    }
    assert requested[..k] == requested;
    return Some(sum);
  }

  /** The order store. */
  class OrderStore {
    var orders: seq<Order>

    constructor ()
      ensures orders == []
    {
      orders := [];
    }

    /** `createOrder`: maps the requested items, totals them, builds the order with status
        "NEW" and both timestamps at `now`, links the items and saves the order. A null item
        list, a null element of it or a null price throws and saves nothing. */
    method CreateOrder(request: OrderRequest, now: Time) returns (r: Result<Order, OrderError>)
      modifies this
      ensures r.Failure? <==>
        request.items.None? || !NoNullItems(request.items.value) || Total(Present(request.items.value)).None?
      ensures r.Failure? ==> orders == old(orders)
      ensures r.Success? ==>
        var o := r.value;
        var requested := Present(request.items.value);
        && fresh(o) && orders == old(orders) + [o]
        && o.orderStatus == "NEW" && o.customerId == request.customerId
        && o.sellerId == request.sellerId && o.paymentStatus == request.paymentStatus
        && o.createdAt == now && o.updatedAt == now
        && o.totalPrice == Total(requested).value
        && |o.items| == |requested|
        && (forall i :: 0 <= i < |requested| ==> fresh(o.items[i]) && o.items[i].Request() == requested[i])
        && (forall i :: 0 <= i < |requested| ==> o.items[i].order == o)
        && (forall i, j :: 0 <= i < j < |requested| ==> o.items[i] != o.items[j])
    {
      if request.items.None? {
        return Failure(NullPointer);
      }
      var mapped := MapToOrderItems(request.items.value);
      if mapped.None? {
        return Failure(NullPointer);
      }
      var orderItems := mapped.value;
      var requested := Present(request.items.value);
      var total := TotalOf(orderItems, requested);
      if total.None? {
        return Failure(NullPointer);
      }
      var order := new Order(request.customerId, request.sellerId, request.paymentStatus, "NEW", now, now, total.value);
      order.SetItems(orderItems);
      orders := orders + [order];
      r := Success(order);
    }
  }
}
