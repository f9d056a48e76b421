/** The cart page (src/app/cart/page.tsx): the cart total and which view the page shows. */
module Cart {
  import opened Wrappers

  /** A cart line as stored under `users/{uid}/carts/{id}`, with its game's title, price and image snapshotted. */
  datatype CartItem = CartItem(
    id: string, gameId: string, quantity: int, title: string, price: int, imageUrl: string)

  /**
   * `items.reduce((sum, item) => sum + item.price * item.quantity, 0)`: a fold
   * from the left. An empty cart totals 0, and with no negative price or
   * quantity the total is never negative.
   */
  function Total(items: seq<CartItem>): (t: int)
    ensures |items| == 0 ==> t == 0
    ensures (forall i :: 0 <= i < |items| ==> items[i].price >= 0 && items[i].quantity >= 0) ==> t >= 0
    decreases |items|
  {
    if |items| == 0 then 0
    else Total(items[..|items| - 1]) + items[|items| - 1].price * items[|items| - 1].quantity
  }

  /** The total of two carts laid end to end is the sum of their totals. */
  lemma {:induction false} TotalAppend(a: seq<CartItem>, b: seq<CartItem>)
    ensures Total(a + b) == Total(a) + Total(b)
    decreases |b|
  {
    if |b| == 0 {
      assert a + b == a;
    } else {
      TotalAppend(a, b[..|b| - 1]);
      assert (a + b)[..|a + b| - 1] == a + b[..|b| - 1];
    }
  }

  /** The total the page shows: the fold over the loaded items, or 0 (`?? 0`) when they are absent. */
  function DisplayedTotal(cart: Option<seq<CartItem>>): (t: int)
    ensures cart.None? ==> t == 0
    ensures cart.Some? ==> t == Total(cart.value)
  {
    if cart.Some? then Total(cart.value) else 0
  }

  datatype CartScreen =
    | LoadingScreen
    | CartPage(showSkeleton: bool, showEmptyMessage: bool, showItems: bool, total: int, checkoutEnabled: bool)

  /** What the page renders, and whether its effect sends the visitor to /login. */
  datatype CartPageState = CartPageState(redirectToLogin: bool, screen: CartScreen)

  function CartView(isUserLoading: bool, signedIn: bool, isCartLoading: bool, cart: Option<seq<CartItem>>)
    : (v: CartPageState)
    ensures v.redirectToLogin <==> !isUserLoading && !signedIn
    ensures v.redirectToLogin ==> v.screen.LoadingScreen?
    ensures v.screen.LoadingScreen? <==> isUserLoading || !signedIn
    ensures v.screen.CartPage? ==>
      && (v.screen.showSkeleton <==> isCartLoading)
      && (v.screen.showEmptyMessage <==> !isCartLoading && (cart.None? || |cart.value| == 0))
      && (v.screen.showItems <==> !isCartLoading && cart.Some? && |cart.value| > 0)
      && v.screen.total == DisplayedTotal(cart)
      && !v.screen.checkoutEnabled
  {
    var redirect := !isUserLoading && !signedIn;
    if isUserLoading || !signedIn then
      CartPageState(redirect, LoadingScreen)
    else
      var empty := cart.None? || |cart.value| == 0;
      CartPageState(redirect, CartPage(
        showSkeleton := isCartLoading,
        showEmptyMessage := !isCartLoading && empty,
        showItems := !isCartLoading && !empty,
        total := DisplayedTotal(cart),
        checkoutEnabled := false))
  }

  /** Once the page is past the loading screen, exactly one of skeleton, empty message and item list shows. */
  lemma CartSectionsExclusive(isUserLoading: bool, signedIn: bool, isCartLoading: bool, cart: Option<seq<CartItem>>)
    requires CartView(isUserLoading, signedIn, isCartLoading, cart).screen.CartPage?
    ensures var s := CartView(isUserLoading, signedIn, isCartLoading, cart).screen;
      (if s.showSkeleton then 1 else 0) + (if s.showEmptyMessage then 1 else 0) + (if s.showItems then 1 else 0) == 1
  {
  }
}
