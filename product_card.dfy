/** A product card (app/components/ProductCard.jsx): the discounted unit
    price it shows and the add-to-cart handler, which merges into the first
    cart line of the same product or creates a new line. */
module ProductCard {
  import opened Options
  import opened Seqs
  import opened Shop
  import opened LineItems
  import opened Remote

  // ---------------------------------------------------------------------
  // The discounted price

  /** `discount > 0 ? price * (1 - discount / 100) : price`. */
  function DiscountedPrice(price: real, discount: int): (r: real)
    ensures discount <= 0 ==> r == price
    ensures 0 < discount < 100 && price > 0.0 ==> 0.0 < r < price
    ensures discount >= 100 && price >= 0.0 ==> r <= 0.0
  {
    if discount > 0 then
      var f := 1.0 - discount as real / 100.0;
      ScaleBounds(price, f);
      price * f
    else price
  }

  lemma ScaleBounds(p: real, f: real)
    ensures p > 0.0 && 0.0 < f < 1.0 ==> 0.0 < p * f < p
    ensures p >= 0.0 && f <= 0.0 ==> p * f <= 0.0
  {
    if p > 0.0 && 0.0 < f < 1.0 {
      assert p * f < p * 1.0;
    }
  }

  /** The list price is recovered from a discounted price below 100%. */
  lemma DiscountedPriceRecovers(price: real, discount: int)
    requires discount < 100
    ensures discount > 0 ==> DiscountedPrice(price, discount) / (1.0 - discount as real / 100.0) == price
    ensures discount <= 0 ==> DiscountedPrice(price, discount) == price
  {
    if discount > 0 {
      var f := 1.0 - discount as real / 100.0;
      assert f > 0.0;
      assert DiscountedPrice(price, discount) == price * f;
      assert (price * f) / f == price;
    }
  }

  /** A larger discount never gives a higher price. */
  lemma DiscountedPriceMonotone(price: real, d1: int, d2: int)
    requires price >= 0.0 && d1 <= d2
    ensures DiscountedPrice(price, d2) <= DiscountedPrice(price, d1)
  {
    var f1 := if d1 > 0 then 1.0 - d1 as real / 100.0 else 1.0;
    var f2 := if d2 > 0 then 1.0 - d2 as real / 100.0 else 1.0;
    ScaleMonotone(price, f2, f1);
    calc {
      DiscountedPrice(price, d2);
    ==
      price * f2;
    <=
      price * f1;
    ==
      DiscountedPrice(price, d1);
    }
  }

  lemma ScaleMonotone(p: real, a: real, b: real)
    requires p >= 0.0 && a <= b
    ensures p * a <= p * b
  {
    assert p * b - p * a == p * (b - a);
  }

  /** A 20% campaign on a 100.00 product: the card shows 80.00. */
  lemma TwentyPercentOffHundred()
    ensures DiscountedPrice(100.0, 20) == 80.0
  {
  }

  // ---------------------------------------------------------------------
  // Merge-or-create against the cart

  /** At most one cart line per product. */
  predicate OneLinePerProduct(items: seq<CartItem>)
  {
    DistinctBy(ItemProduct, items)
  }

  /** The cart after a successful add of `d` (a body for `POST /cart`) when
      the next stored id is `freshId`: the first line of the same product
      gets `d.quantity` more units, or, when there is none, a new line is
      appended. */
  function AddedToCart(items: seq<CartItem>, freshId: nat, d: CartItemDraft): (r: seq<CartItem>)
    ensures HasKey(ItemProduct, r, d.productId)
    ensures |r| >= |items|
    ensures forall i :: 0 <= i < |items| && items[i].productId != d.productId ==> r[i] == items[i]
  {
    match FindIndex(KeyIs(ItemProduct, d.productId), items)
    case Some(k) =>
      var r := items[k := items[k].(quantity := items[k].quantity + d.quantity)];
      assert KeyIs(ItemProduct, d.productId)(items[k]);
      assert ItemProduct(items[k]) == d.productId;
      assert r[k].productId == items[k].productId;
      r
    case None =>
      var r := items + [CreatedItem(freshId, d)];
      assert ItemProduct(r[|items|]) == d.productId;
      r
  }

  /** The first line of a product is the one `find` picks. */
  lemma FirstLineOfProduct(items: seq<CartItem>, pid: nat, k: nat)
    requires k < |items| && items[k].productId == pid
    requires forall j :: 0 <= j < k ==> items[j].productId != pid
    ensures FindIndex(KeyIs(ItemProduct, pid), items) == Some(k)
  {
    var f := KeyIs(ItemProduct, pid);
    assert f(items[k]);
    var m := FindIndex(f, items);
    assert m.Some? && m.value <= k;
    assert !f(items[m.value]) || m.value == k;
  }

  /** When the product already has lines, only the first of them changes,
      and only its quantity: it grows by the added amount, and the price
      stored when the line was created is kept. */
  lemma AddMergesIntoFirstLine(items: seq<CartItem>, freshId: nat, d: CartItemDraft, k: nat)
    requires k < |items| && items[k].productId == d.productId
    requires forall j :: 0 <= j < k ==> items[j].productId != d.productId
    ensures var r := AddedToCart(items, freshId, d);
      && |r| == |items|
      && r[k].quantity == items[k].quantity + d.quantity
      && r[k] == items[k].(quantity := r[k].quantity)
      && r[k].price == items[k].price
      && forall i :: 0 <= i < |items| && i != k ==> r[i] == items[i]
  {
    FirstLineOfProduct(items, d.productId, k);
  }

  /** When the product has no line yet, exactly one line is added: it
      carries the product, title, the (discounted) price, image and quantity
      from the request body, the server's id and no note. */
  lemma AddCreatesOneLine(items: seq<CartItem>, freshId: nat, d: CartItemDraft)
    requires !HasKey(ItemProduct, items, d.productId)
    ensures var r := AddedToCart(items, freshId, d);
      && |r| == |items| + 1 && r[..|items|] == items
      && r[|items|] == CartItem(freshId, d.productId, d.title, d.price, d.image, d.quantity, None)
  {
  }

  /** Adding never creates a second line for a product: a cart with at most
      one line per product keeps that shape. */
  lemma AddKeepsOneLinePerProduct(items: seq<CartItem>, freshId: nat, d: CartItemDraft)
    requires OneLinePerProduct(items)
    ensures OneLinePerProduct(AddedToCart(items, freshId, d))
  {
    var r := AddedToCart(items, freshId, d);
    var f := KeyIs(ItemProduct, d.productId);
    match FindIndex(f, items)
    case Some(k) =>
      assert forall i :: 0 <= i < |r| ==> ItemProduct(r[i]) == ItemProduct(items[i]);
    case None =>
      forall i, j | 0 <= i < j < |r|
        ensures ItemProduct(r[i]) != ItemProduct(r[j])
      {
        if j == |items| {
          assert !f(items[i]);
        } else {
          assert r[i] == items[i] && r[j] == items[j];
        }
      }
  }

  /** Two adds of the same product in a row, starting from a cart without
      it, leave a single line holding both quantities. */
  lemma TwoAddsMerge(items: seq<CartItem>, id1: nat, id2: nat, d1: CartItemDraft, d2: CartItemDraft)
    requires !HasKey(ItemProduct, items, d1.productId) && d2.productId == d1.productId
    ensures var r := AddedToCart(AddedToCart(items, id1, d1), id2, d2);
      && |r| == |items| + 1 && r[..|items|] == items
      && r[|items|] == CartItem(id1, d1.productId, d1.title, d1.price, d1.image, d1.quantity + d2.quantity, None)
  {
    var once := AddedToCart(items, id1, d1);
    AddCreatesOneLine(items, id1, d1);
    forall j | 0 <= j < |items| ensures once[j].productId != d2.productId
    {
      assert once[j] == items[j];
      assert ItemProduct(items[j]) != d1.productId;
    }
    AddMergesIntoFirstLine(once, id2, d2, |items|);
    var r := AddedToCart(once, id2, d2);
    assert r[..|items|] == items by {
      forall i | 0 <= i < |items| ensures r[i] == items[i]
      {
        assert r[i] == once[i];
      }
    }
  }

  lemma MergeIsUpdate(items: seq<CartItem>, freshId: nat, d: CartItemDraft, k: nat)
    requires k < |items| && items[k].productId == d.productId
    requires forall j :: 0 <= j < k ==> items[j].productId != d.productId
    ensures AddedToCart(items, freshId, d) == items[k := items[k].(quantity := items[k].quantity + d.quantity)]
  {
    FirstLineOfProduct(items, d.productId, k);
  }

  /** Merging `n` more units into line `k` raises the subtotal by those
      units at that line's stored price, whatever price the request
      carries. */
  lemma SubtotalGrowLine(items: seq<CartItem>, k: nat, n: int)
    requires k < |items|
    ensures Subtotal(items[k := items[k].(quantity := items[k].quantity + n)]) ==
            Subtotal(items) + n as real * items[k].price
  {
    var x := items[k].(quantity := items[k].quantity + n);
    UpdateIsSplice(items, k, x);
    SubtotalReplaceAt(items, k, x);
    LineTotalGrows(items[k], n);
  }

  lemma LineTotalGrows(x: CartItem, n: int)
    ensures LineTotal(x.(quantity := x.quantity + n)) == LineTotal(x) + n as real * x.price
  {
    var q := x.quantity as real;
    assert (x.quantity + n) as real == q + n as real;
    assert x.price * (q + n as real) == x.price * q + x.price * n as real;
  }

  /** A new line adds the request's units at the request's price. */
  lemma AddSubtotalCreate(items: seq<CartItem>, freshId: nat, d: CartItemDraft)
    requires !HasKey(ItemProduct, items, d.productId)
    ensures Subtotal(AddedToCart(items, freshId, d)) == Subtotal(items) + d.quantity as real * d.price
  {
    AddCreatesOneLine(items, freshId, d);
    var x := CreatedItem(freshId, d);
    assert AddedToCart(items, freshId, d) == items + [x];
    SubtotalAppend(items, [x]);
    assert [x][..0] == [];
  }

  /** What the store does on the merge path is AddedToCart: the PUT of the
      first looked-up line with the summed quantity. */
  lemma MergePutIsAdd(items: seq<CartItem>, freshId: nat, d: CartItemDraft)
    requires DistinctIds(items) && WithProduct(items, d.productId) != []
    ensures var line := WithProduct(items, d.productId)[0];
      && HasId(items, line.id)
      && ReplaceById(items, line.(quantity := line.quantity + d.quantity)) == AddedToCart(items, freshId, d)
  {
    var f := KeyIs(ItemProduct, d.productId);
    FilterHeadIsFind(f, items);
    var k := FindIndex(f, items).value;
    var line := items[k];
    assert WithProduct(items, d.productId)[0] == line;
    assert ItemId(items[k]) == line.id;
    var x := line.(quantity := line.quantity + d.quantity);
    calc {
      ReplaceById(items, x);
      ReplaceBy(ItemId, items, x);
      { ReplaceAt(ItemId, items, k, x); }
      items[..k] + [x] + items[k+1..];
      { UpdateIsSplice(items, k, x); }
      items[k := x];
      AddedToCart(items, freshId, d);
    }
  }

  /** What the store does on the create path is AddedToCart: the POST of the
      request body. */
  lemma CreatePostIsAdd(items: seq<CartItem>, freshId: nat, d: CartItemDraft)
    requires WithProduct(items, d.productId) == []
    ensures items + [CreatedItem(freshId, d)] == AddedToCart(items, freshId, d)
  {
    FilterHeadIsFind(KeyIs(ItemProduct, d.productId), items);
  }

  // ---------------------------------------------------------------------
  // The card's state

  class CardState {
    const id: nat
    const title: string
    const description: string
    const price: real
    const image: string
    const discount: int
    var quantity: int
    var isAdding: bool

    /** The props. The component's own default `discount = 0` is not
        modelled: the catalog page always passes a discount. */
    constructor (id: nat, title: string, description: string, price: real, image: string, discount: int)
      ensures this.id == id && this.title == title && this.description == description
      ensures this.price == price && this.image == image && this.discount == discount
      ensures quantity == 1 && !isAdding
    {
      this.id := id;
      this.title := title;
      this.description := description;
      this.price := price;
      this.image := image;
      this.discount := discount;
      quantity := 1;
      isAdding := false;
    }

    /** The body posted for a new line: the discounted price, not the list
        price. */
    function Draft(): (d: CartItemDraft)
      reads this
      ensures d.productId == id && d.title == title && d.image == image && d.quantity == quantity
      ensures d.price == DiscountedPrice(price, discount)
    {
      CartItemDraft(id, title, DiscountedPrice(price, discount), image, quantity)
    }

    /** The quantity field: `parseInt(value) || 1`. */
    method SetQuantityInput(parsed: Option<int>)
      modifies this
      ensures quantity == ParsedOr(parsed, 1) && quantity != 0
      ensures isAdding == old(isAdding)
    {
      quantity := ParsedOr(parsed, 1);
    }

    /** addToCart: with a quantity below 1 nothing is requested. Otherwise
        the product's lines are looked up (`lookupOk`) and the first one is
        written back with the summed quantity, or a new line is posted
        (`writeOk`). The cart changes as AddedToCart says exactly when both
        requests succeed; isAdding is false afterwards in every outcome. */
    method AddToCart(store: CartStore, lookupOk: bool, writeOk: bool)
      requires store.Valid()
      modifies this, store
      ensures store.items ==
        if old(quantity) >= 1 && lookupOk && writeOk
        then AddedToCart(old(store.items), old(store.nextId), old(Draft()))
        else old(store.items)
      ensures store.Valid()
      ensures old(quantity) >= 1 ==> !isAdding
      ensures old(quantity) < 1 ==> isAdding == old(isAdding)
      ensures quantity == old(quantity)
    {
      if quantity < 1 {
        return;
      }
      isAdding := true;
      var d := Draft();
      var lines := store.QueryByProduct(id, lookupOk);
      if lines.Some? {
        if |lines.value| > 0 {
          var line := lines.value[0];
          MergePutIsAdd(store.items, store.nextId, d);
          var _ := store.Put(line.(quantity := line.quantity + quantity), writeOk);
        } else {
          CreatePostIsAdd(store.items, store.nextId, d);
          var _ := store.Post(d, writeOk);
        }
      }
      isAdding := false;
    }
  }
}
