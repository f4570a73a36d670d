/** The navigation bar's cart badge (app/components/NavigationBar.tsx and
    its .jsx twin, which compute the same values): the number of cart lines
    and their summed price, read from the server's cart. */
module NavigationBar {
  import opened Options
  import opened Shop
  import opened LineItems
  import opened Remote

  /** With every quantity at least 1, the line count never exceeds the
      number of units, and equals it exactly when every line holds one
      unit: the badge counts lines, not units. */
  lemma {:induction false} LinesAtMostUnits(s: seq<CartItem>)
    requires AllPositive(s)
    ensures |s| <= TotalUnits(s)
    ensures |s| == TotalUnits(s) <==> forall i :: 0 <= i < |s| ==> s[i].quantity == 1
  {
    if s != [] {
      var init := s[..|s| - 1];
      assert AllPositive(init) by {
        forall i | 0 <= i < |init| ensures init[i].quantity >= 1 {
          assert init[i] == s[i];
        }
      }
      LinesAtMostUnits(init);
      if |s| == TotalUnits(s) {
        forall i | 0 <= i < |s| ensures s[i].quantity == 1 {
          if i < |s| - 1 {
            assert init[i] == s[i];
          }
        }
      }
      if forall i :: 0 <= i < |s| ==> s[i].quantity == 1 {
        assert forall i :: 0 <= i < |init| ==> init[i].quantity == 1 by {
          forall i | 0 <= i < |init| ensures init[i].quantity == 1 {
            assert init[i] == s[i];
          }
        }
      }
    }
  }

  class CartBadge {
    var cartCount: int
    var cartTotal: real

    constructor ()
      ensures cartCount == 0 && cartTotal == 0.0
    {
      cartCount := 0;
      cartTotal := 0.0;
    }

    /** fetchCartData: on success both values come from the same response,
        the count of lines and their summed `price * quantity` (the cart
        page's subtotal, without its delivery fee); on failure both keep
        their values. */
    method FetchCartData(store: CartStore, ok: bool)
      modifies this
      ensures ok ==> cartCount == |store.items| && cartTotal == Subtotal(store.items)
      ensures ok ==> Total(store.items) == cartTotal + DeliveryFee(cartTotal)
      ensures !ok ==> cartCount == old(cartCount) && cartTotal == old(cartTotal)
    {
      var response := store.GetAll(ok);
      if response.Some? {
        var cartItems := response.value;
        cartCount := |cartItems|;
        cartTotal := Subtotal(cartItems);
      }
    }
  }
}
