/** The json-server collections the storefront talks to (`/cart`,
    `/products`, `/campaigns`, `/reviews`), as objects whose state the
    requests change. Whether a request reaches the server and succeeds is an
    explicit input `ok` (false for a network or server error); a request for
    an id that is not stored fails as json-server's 404 does. */
module Remote {
  import opened Options
  import opened Seqs
  import opened Shop
  import opened LineItems

  /** Dropping items keeps ids distinct and below the next id. */
  lemma RemoveIdsKeepsValid(s: seq<CartItem>, ids: set<nat>, n: nat)
    requires DistinctIds(s) && IdsBelow(s, n)
    ensures DistinctIds(RemoveIds(s, ids)) && IdsBelow(RemoveIds(s, ids), n)
  {
    var r := RemoveIds(s, ids);
    FilterDistinctBy(ItemId, KeyNotIn(ItemId, ids), s);
    forall i | 0 <= i < |r| ensures r[i].id < n
    {
      assert r[i] in s;
    }
  }

  /** The `cart` collection; `nextId` is the id the next POST receives. */
  class CartStore {
    var items: seq<CartItem>
    var nextId: nat

    ghost predicate Valid()
      reads this
    {
      DistinctIds(items) && IdsBelow(items, nextId)
    }

    constructor (init: seq<CartItem>, next: nat)
      requires DistinctIds(init) && IdsBelow(init, next)
      ensures Valid() && items == init && nextId == next
    {
      items := init;
      nextId := next;
    }

    /** `GET /cart`. */
    method GetAll(ok: bool) returns (r: Option<seq<CartItem>>)
      ensures ok ==> r == Some(items)
      ensures !ok ==> r == None
    {
      r := if ok then Some(items) else None;
    }

    /** `GET /cart?productId=pid`: the stored lines of that product, in
        stored order. */
    method QueryByProduct(pid: nat, ok: bool) returns (r: Option<seq<CartItem>>)
      ensures ok ==> r == Some(WithProduct(items, pid))
      ensures !ok ==> r == None
    {
      r := if ok then Some(WithProduct(items, pid)) else None;
    }

    /** `PUT /cart/{x.id}` with body `x`. */
    method Put(x: CartItem, ok: bool) returns (success: bool)
      requires Valid()
      modifies this
      ensures success <==> ok && HasId(old(items), x.id)
      ensures items == if success then ReplaceById(old(items), x) else old(items)
      ensures nextId == old(nextId) && Valid()
    {
      success := ok && HasId(items, x.id);
      if success {
        items := ReplaceById(items, x);
      }
    }

    /** `POST /cart` with body `d`: the stored record gets the next id. */
    method Post(d: CartItemDraft, ok: bool) returns (r: Option<CartItem>)
      requires Valid()
      modifies this
      ensures ok ==> r == Some(CreatedItem(old(nextId), d)) &&
                     items == old(items) + [r.value] && nextId == old(nextId) + 1
      ensures !ok ==> r == None && items == old(items) && nextId == old(nextId)
      ensures Valid()
    {
      if ok {
        var x := CreatedItem(nextId, d);
        items := items + [x];
        nextId := nextId + 1;
        r := Some(x);
      } else {
        r := None;
      }
    }

    /** `DELETE /cart/{id}`. */
    method Delete(id: nat, ok: bool) returns (success: bool)
      requires Valid()
      modifies this
      ensures success <==> ok && HasId(old(items), id)
      ensures items == if success then RemoveId(old(items), id) else old(items)
      ensures nextId == old(nextId) && Valid()
    {
      success := ok && HasId(items, id);
      if success {
        RemoveIdsKeepsValid(items, {id}, nextId);
        items := RemoveId(items, id);
      }
    }
  }

  /** The stored product with id `id`, if any. */
  function Lookup(products: seq<Product>, id: nat): (r: Option<Product>)
    ensures r.Some? <==> HasKey(ProductId, products, id)
    ensures r.Some? ==> r.value.id == id && r.value in products
  {
    match FindIndex(KeyIs(ProductId, id), products)
    case Some(k) => Some(products[k])
    case None =>
      assert forall i :: 0 <= i < |products| ==> !KeyIs(ProductId, id)(products[i]);
      None
  }

  /** With distinct ids, a product read back after its PUT is the product
      written. */
  lemma LookupAfterPut(products: seq<Product>, p: Product)
    requires DistinctBy(ProductId, products) && HasKey(ProductId, products, p.id)
    ensures Lookup(ReplaceBy(ProductId, products, p), p.id) == Some(p)
  {
    var r := ReplaceBy(ProductId, products, p);
    var k :| 0 <= k < |products| && ProductId(products[k]) == p.id;
    ReplaceAt(ProductId, products, k, p);
    assert r[k] == p;
    forall i | 0 <= i < |r| && r[i].id == p.id
      ensures i == k
    {
      assert ProductId(products[i]) == ProductId(products[k]);
    }
    var found := Lookup(r, p.id);
    assert found.Some? && found.value in r;
  }

  /** The `products` collection. */
  class ProductStore {
    var products: seq<Product>

    ghost predicate Valid()
      reads this
    {
      DistinctBy(ProductId, products)
    }

    constructor (init: seq<Product>)
      requires DistinctBy(ProductId, init)
      ensures Valid() && products == init
    {
      products := init;
    }

    /** `GET /products/{id}`. */
    method Get(id: nat, ok: bool) returns (r: Option<Product>)
      ensures ok ==> r == Lookup(products, id)
      ensures !ok ==> r == None
    {
      r := if ok then Lookup(products, id) else None;
    }

    /** `PUT /products/{p.id}` with body `p`. */
    method Put(p: Product, ok: bool) returns (success: bool)
      requires Valid()
      modifies this
      ensures success <==> ok && HasKey(ProductId, old(products), p.id)
      ensures products == if success then ReplaceBy(ProductId, old(products), p) else old(products)
      ensures Valid()
    {
      success := ok && HasKey(ProductId, products, p.id);
      if success {
        products := ReplaceBy(ProductId, products, p);
      }
    }
  }

  /** The `campaigns` collection; `nextId` is the id the next POST receives. */
  class CampaignStore {
    var campaigns: seq<Campaign>
    var nextId: nat

    ghost predicate Valid()
      reads this
    {
      DistinctBy(CampaignId, campaigns) &&
      forall i :: 0 <= i < |campaigns| ==> campaigns[i].id < nextId
    }

    constructor (init: seq<Campaign>, next: nat)
      requires DistinctBy(CampaignId, init)
      requires forall i :: 0 <= i < |init| ==> init[i].id < next
      ensures Valid() && campaigns == init && nextId == next
    {
      campaigns := init;
      nextId := next;
    }

    /** `GET /campaigns`. */
    method GetAll(ok: bool) returns (r: Option<seq<Campaign>>)
      ensures ok ==> r == Some(campaigns)
      ensures !ok ==> r == None
    {
      r := if ok then Some(campaigns) else None;
    }

    /** `POST /campaigns` with body `d`: the stored record gets the next id. */
    method Post(d: CampaignDraft, ok: bool) returns (r: Option<Campaign>)
      requires Valid()
      modifies this
      ensures ok ==> r == Some(CreatedCampaign(old(nextId), d)) &&
                     campaigns == old(campaigns) + [r.value] && nextId == old(nextId) + 1
      ensures !ok ==> r == None && campaigns == old(campaigns) && nextId == old(nextId)
      ensures Valid()
    {
      if ok {
        var c := CreatedCampaign(nextId, d);
        campaigns := campaigns + [c];
        nextId := nextId + 1;
        r := Some(c);
      } else {
        r := None;
      }
    }
  }

  /** The `reviews` collection: each stored review names its product. */
  class ReviewStore {
    var entries: seq<ListedReview>

    constructor (init: seq<ListedReview>)
      ensures entries == init
    {
      entries := init;
    }

    /** `GET /reviews?productId=pid`. */
    method QueryByProduct(pid: nat, ok: bool) returns (r: Option<seq<ListedReview>>)
      ensures ok ==> r == Some(Filter(KeyIs(ListedProduct, pid), entries))
      ensures !ok ==> r == None
    {
      r := if ok then Some(Filter(KeyIs(ListedProduct, pid), entries)) else None;
    }
  }
}
