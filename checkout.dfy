/**
 * The checkout page (src/app/checkout/page.tsx): the displayed total, the
 * view selection, and order placement, which turns the cart into one new
 * order and deletes every cart line in a single batch.
 */
module Checkout {
  import opened Wrappers
  import opened Types
  import opened DocStore
  import opened Cart

  /** A cart line cut down to the four fields an order keeps; the cart line id and image are dropped. */
  function ToOrderItem(c: CartItem): OrderItem
  {
    OrderItem(c.gameId, c.title, c.price, c.quantity)
  }

  /** `cartItems.map(...)`: one order line per cart line, in cart order. */
  function OrderItems(cart: seq<CartItem>): seq<OrderItem>
  {
    seq(|cart|, i requires 0 <= i < |cart| => ToOrderItem(cart[i]))
  }

  /** The order lines add up to the cart total: the left fold of the page equals the sum over the order's lines. */
  lemma {:induction false} OrderItemsTotal(cart: seq<CartItem>)
    ensures ItemsTotal(OrderItems(cart)) == Total(cart)
    decreases |cart|
  {
    if |cart| > 0 {
      OrderItemsTotal(cart[1..]);
      assert OrderItems(cart)[1..] == OrderItems(cart[1..]);
      TotalAppend([cart[0]], cart[1..]);
      assert [cart[0]] + cart[1..] == cart;
      assert [cart[0]][..0] == [];
    }
  }

  /**
   * The order document as checkout writes it. `status` is the boolean the
   * page stores, not the 'Pending' | 'Delivered' of the declared type.
   */
  datatype OrderRecord = OrderRecord(
    userId: string,
    userEmail: Option<string>,
    items: seq<OrderItem>,
    totalAmount: int,
    status: bool,
    createdAt: int)

  /** The order built from the signed-in user, the loaded cart and the current time. */
  function NewOrderRecord(user: AuthUser, cart: seq<CartItem>, now: int): (o: OrderRecord)
    ensures o.userId == user.uid && o.userEmail == user.email
    ensures |o.items| == |cart|
    ensures forall i :: 0 <= i < |cart| ==>
      && o.items[i].gameId == cart[i].gameId
      && o.items[i].title == cart[i].title
      && o.items[i].price == cart[i].price
      && o.items[i].quantity == cart[i].quantity
    ensures o.totalAmount == DisplayedTotal(Some(cart))
    ensures o.totalAmount == ItemsTotal(o.items)
    ensures !o.status && o.createdAt == now
  {
    OrderItemsTotal(cart);
    OrderRecord(user.uid, user.email, OrderItems(cart), Total(cart), false, now)
  }

  function ItemValue(item: OrderItem): Value
  {
    Obj(map["gameId" := Str(item.gameId), "title" := Str(item.title),
            "price" := Num(item.price), "quantity" := Num(item.quantity)])
  }

  function ItemValues(items: seq<OrderItem>): seq<Value>
  {
    seq(|items|, i requires 0 <= i < |items| => ItemValue(items[i]))
  }

  /** The stored form of an order record; nothing of the payment configuration is in it. */
  function OrderDoc(o: OrderRecord): (d: Doc)
    ensures d.Keys == {"userId", "userEmail", "items", "totalAmount", "status", "createdAt"}
  {
    map["userId" := Str(o.userId),
        "userEmail" := NullableStr(o.userEmail),
        "items" := List(ItemValues(o.items)),
        "totalAmount" := Num(o.totalAmount),
        "status" := Bool(o.status),
        "createdAt" := Num(o.createdAt)]
  }

  function DecodeItem(v: Value): Option<OrderItem>
  {
    if v.Obj? && "gameId" in v.fields && "title" in v.fields && "price" in v.fields && "quantity" in v.fields
       && v.fields["gameId"].Str? && v.fields["title"].Str? && v.fields["price"].Num? && v.fields["quantity"].Num?
    then Some(OrderItem(v.fields["gameId"].s, v.fields["title"].s, v.fields["price"].n, v.fields["quantity"].n))
    else None
  }

  function DecodeItems(vs: seq<Value>): Option<seq<OrderItem>>
    decreases |vs|
  {
    if |vs| == 0 then Some([])
    else
      var head := DecodeItem(vs[0]);
      var tail := DecodeItems(vs[1..]);
      if head.Some? && tail.Some? then Some([head.value] + tail.value) else None
  }

  /** Reads an order document back; `None` when a field is missing or has the wrong kind. */
  function DecodeOrder(d: Doc): Option<OrderRecord>
  {
    if "userId" in d && "userEmail" in d && "items" in d && "totalAmount" in d && "status" in d && "createdAt" in d
       && d["userId"].Str? && (d["userEmail"].Str? || d["userEmail"].Null?) && d["items"].List?
       && d["totalAmount"].Num? && d["status"].Bool? && d["createdAt"].Num?
    then
      var items := DecodeItems(d["items"].elems);
      if items.Some? then
        Some(OrderRecord(d["userId"].s,
                         if d["userEmail"].Str? then Some(d["userEmail"].s) else None,
                         items.value, d["totalAmount"].n, d["status"].b, d["createdAt"].n))
      else None
    else None
  }

  lemma {:induction false} DecodeItemValues(items: seq<OrderItem>)
    ensures DecodeItems(ItemValues(items)) == Some(items)
    decreases |items|
  {
    if |items| > 0 {
      DecodeItemValues(items[1..]);
      assert ItemValues(items)[1..] == ItemValues(items[1..]);
      assert [items[0]] + items[1..] == items;
    }
  }

  /** The stored order keeps every field of the record: reading it back gives the record. */
  lemma OrderDocRoundTrip(o: OrderRecord)
    ensures DecodeOrder(OrderDoc(o)) == Some(o)
  {
    var d := OrderDoc(o);
    DecodeItemValues(o.items);
    assert "userId" in d && "userEmail" in d && "items" in d && "totalAmount" in d && "status" in d && "createdAt" in d;
    assert d["items"] == List(ItemValues(o.items));
    assert d["userId"] == Str(o.userId) && d["userEmail"] == NullableStr(o.userEmail);
    assert o.userEmail.Some? ==> d["userEmail"] == Str(o.userEmail.value);
    assert d["totalAmount"] == Num(o.totalAmount) && d["status"] == Bool(o.status) && d["createdAt"] == Num(o.createdAt);
    var email: Option<string> := if d["userEmail"].Str? then Some(d["userEmail"].s) else None;
    assert email == o.userEmail;
    assert DecodeItems(d["items"].elems) == Some(o.items);
    assert DecodeOrder(d) == Some(OrderRecord(d["userId"].s, email, o.items, d["totalAmount"].n, d["status"].b, d["createdAt"].n));
  }

  /** The cart lines' documents. */
  function CartPaths(uid: string, cart: seq<CartItem>): set<Path>
  {
    set i | 0 <= i < |cart| :: CartItemPath(uid, cart[i].id)
  }

  /** The batch of lines 73-82: the order set first, then one delete per cart line in cart order. */
  predicate IsPlaceOrderBatch(batch: seq<Write>, orderPath: Path, order: Doc, uid: string, cart: seq<CartItem>)
  {
    && |batch| == |cart| + 1
    && batch[0] == SetDoc(orderPath, order)
    && forall i :: 0 <= i < |cart| ==> batch[i + 1] == DeleteDoc(CartItemPath(uid, cart[i].id))
  }

  /** Builds the batch: one set of the new order, then a delete per cart line (`cartItems.forEach`). */
  method BuildBatch(orderPath: Path, order: Doc, uid: string, cart: seq<CartItem>) returns (batch: seq<Write>)
    ensures |batch| == |cart| + 1
    ensures batch[0] == SetDoc(orderPath, order)
    ensures forall i :: 0 <= i < |cart| ==> batch[i + 1] == DeleteDoc(CartItemPath(uid, cart[i].id))
  {
    batch := [SetDoc(orderPath, order)];
    for i := 0 to |cart|
      invariant |batch| == i + 1
      invariant batch[0] == SetDoc(orderPath, order)
      invariant forall k :: 0 <= k < i ==> batch[k + 1] == DeleteDoc(CartItemPath(uid, cart[k].id))
    {
      batch := batch + [DeleteDoc(CartItemPath(uid, cart[i].id))];
    }
  }

  /** The store after a successful placement: the order added, every cart line removed. */
  function AfterPlacement(docs: map<Path, Doc>, orderPath: Path, order: Doc, uid: string, cart: seq<CartItem>)
    : map<Path, Doc>
  {
    docs[orderPath := order] - CartPaths(uid, cart)
  }

  /** Committing the placement batch has exactly the effect `AfterPlacement` describes. */
  lemma BatchEffect(docs: map<Path, Doc>, batch: seq<Write>, orderId: string, order: Doc, uid: string, cart: seq<CartItem>)
    requires IsPlaceOrderBatch(batch, OrdersCollection(uid) + [orderId], order, uid, cart)
    ensures ApplyBatch(docs, batch) == AfterPlacement(docs, OrdersCollection(uid) + [orderId], order, uid, cart)
  {
    var p := OrdersCollection(uid) + [orderId];
    var deletes := batch[1..];
    assert ApplyBatch(docs, batch) == ApplyBatch(docs[p := order], deletes);
    forall i | 0 <= i < |deletes|
      ensures deletes[i] == DeleteDoc(CartItemPath(uid, cart[i].id))
    {
      assert deletes[i] == batch[i + 1];
    }
    ApplyDeletes(docs[p := order], deletes);
    assert DeletedPaths(deletes) == CartPaths(uid, cart) by {
      forall q | q in CartPaths(uid, cart) ensures q in DeletedPaths(deletes) {
        var i :| 0 <= i < |cart| && q == CartItemPath(uid, cart[i].id);
        assert deletes[i] == DeleteDoc(q);
      }
      forall q | q in DeletedPaths(deletes) ensures q in CartPaths(uid, cart) {
        var i :| 0 <= i < |deletes| && deletes[i].DeleteDoc? && deletes[i].path == q;
        assert q == CartItemPath(uid, cart[i].id);
      }
    }
  }

  /**
   * A placement adds exactly one document, the order at its fresh id, removes
   * every cart line, and leaves every other document as it was.
   */
  lemma PlacementEffect(docs: map<Path, Doc>, orderId: string, order: Doc, uid: string, cart: seq<CartItem>)
    requires OrdersCollection(uid) + [orderId] !in docs
    ensures OrdersCollection(uid) + [orderId] in AfterPlacement(docs, OrdersCollection(uid) + [orderId], order, uid, cart)
    ensures AfterPlacement(docs, OrdersCollection(uid) + [orderId], order, uid, cart)[OrdersCollection(uid) + [orderId]] == order
    ensures AfterPlacement(docs, OrdersCollection(uid) + [orderId], order, uid, cart).Keys
            == (docs.Keys - CartPaths(uid, cart)) + {OrdersCollection(uid) + [orderId]}
    ensures AfterPlacement(docs, OrdersCollection(uid) + [orderId], order, uid, cart).Keys - docs.Keys
            == {OrdersCollection(uid) + [orderId]}
    ensures forall i :: 0 <= i < |cart| ==>
      CartItemPath(uid, cart[i].id) !in AfterPlacement(docs, OrdersCollection(uid) + [orderId], order, uid, cart)
    ensures forall q :: q in docs && q !in CartPaths(uid, cart) ==>
      var after := AfterPlacement(docs, OrdersCollection(uid) + [orderId], order, uid, cart);
      q in after && after[q] == docs[q]
  {
    var p := OrdersCollection(uid) + [orderId];
    forall i | 0 <= i < |cart| ensures CartItemPath(uid, cart[i].id) != p {
      assert CartItemPath(uid, cart[i].id)[2] != p[2];
    }
  }

  datatype PlaceOutcome =
    | NotAttempted          // a guard failed: no write, no toast
    | Placed(orderId: string)  // "Order Placed!" toast, then navigation to /orders
    | Failed                // "Order Failed" toast

  datatype CheckoutScreen =
    | CheckoutSpinner
    | EmptyCartCard
    | PaymentPage(showQrCode: bool, placeOrderDisabled: bool, total: int)

  /** What the page does on a render: the `/login` redirect of lines 32-36 and the screen of lines 103-215. */
  datatype CheckoutPageState = CheckoutPageState(redirectToLogin: bool, screen: CheckoutScreen)

  function CheckoutView(isUserLoading: bool, isCartLoading: bool, isConfigLoading: bool, signedIn: bool,
                        cart: Option<seq<CartItem>>, config: Option<PaymentConfig>, isPlacingOrder: bool)
    : (v: CheckoutPageState)
    ensures v.redirectToLogin <==> !isUserLoading && !signedIn
    ensures v.redirectToLogin ==> v.screen.CheckoutSpinner?
    ensures v.screen.CheckoutSpinner? <==> isUserLoading || isCartLoading || isConfigLoading || !signedIn
    ensures v.screen.EmptyCartCard? <==> !v.screen.CheckoutSpinner? && (cart.None? || |cart.value| == 0)
    ensures v.screen.PaymentPage? ==>
      && cart.Some? && |cart.value| > 0
      && (v.screen.placeOrderDisabled <==> isPlacingOrder)
      && (v.screen.showQrCode <==> config.Some? && config.value.qrCodeUrl != "")
      && v.screen.total == Total(cart.value)
  {
    var redirect := !isUserLoading && !signedIn;
    var screen :=
      if isUserLoading || isCartLoading || isConfigLoading || !signedIn then CheckoutSpinner
      else if cart.None? || |cart.value| == 0 then EmptyCartCard
      else PaymentPage(config.Some? && config.value.qrCodeUrl != "", isPlacingOrder, DisplayedTotal(cart));
    CheckoutPageState(redirect, screen)
  }

  class CheckoutPage {
    var isPlacingOrder: bool

    constructor ()
      ensures !isPlacingOrder
    {
      isPlacingOrder := false;
    }

    /** `handlePlaceOrder`; `now` is `Date.now()`. */
    method HandlePlaceOrder(store: Store?, user: Option<AuthUser>, cart: Option<seq<CartItem>>, now: int)
      returns (outcome: PlaceOutcome)
      modifies this, store
      ensures outcome.NotAttempted? <==> store == null || user.None? || cart.None? || |cart.value| == 0
      ensures outcome.NotAttempted? ==>
        isPlacingOrder == old(isPlacingOrder) && (store != null ==> store.docs == old(store.docs))
      ensures outcome.Placed? ==>
        && store != null && user.Some? && cart.Some?
        && OrdersCollection(user.value.uid) + [outcome.orderId] !in old(store.docs)
        && store.docs == AfterPlacement(old(store.docs), OrdersCollection(user.value.uid) + [outcome.orderId],
                                        OrderDoc(NewOrderRecord(user.value, cart.value, now)),
                                        user.value.uid, cart.value)
        && isPlacingOrder
      ensures outcome.Failed? ==> store != null && store.docs == old(store.docs) && !isPlacingOrder
    {
      if store == null || user.None? || cart.None? || |cart.value| == 0 {
        return NotAttempted;
      }
      isPlacingOrder := true;
      var uid := user.value.uid;
      var order := OrderDoc(NewOrderRecord(user.value, cart.value, now));
      var orderId := store.NewId(OrdersCollection(uid));
      var batch := BuildBatch(OrdersCollection(uid) + [orderId], order, uid, cart.value);
      ghost var before := store.docs;
      BatchEffect(before, batch, orderId, order, uid, cart.value);
      var ok := store.Commit(batch);
      if ok {
        outcome := Placed(orderId);
      } else {
        outcome := Failed;
        isPlacingOrder := false;
      }
    }
  }
}
