/** The catalog page (app/page.jsx): the discount each product card is
    given, the category list, and the pipeline that turns the fetched
    products into the visible grid (category filter, then search, then a
    price sort over a copy). */
module HomePage {
  import opened Options
  import opened Seqs
  import opened Shop
  import opened Text

  /** The values of the sort selector. */
  const NoSorting: string := ""
  const PriceAsc: string := "price_asc"
  const PriceDesc: string := "price_desc"

  // ---------------------------------------------------------------------
  // getProductDiscount

  /** The find callback `c => c.productIds.includes(pid)`. */
  function Covers(pid: nat): Campaign -> bool
  {
    (c: Campaign) => pid in c.productIds
  }

  /** The discount of the first campaign, in array order, that lists the
      product; 0 when none does. */
  function ProductDiscount(campaigns: seq<Campaign>, pid: nat): (d: int)
    ensures (forall i :: 0 <= i < |campaigns| ==> pid !in campaigns[i].productIds) ==> d == 0
    ensures forall k :: 0 <= k < |campaigns| && pid in campaigns[k].productIds &&
                        (forall j :: 0 <= j < k ==> pid !in campaigns[j].productIds) ==>
                        d == campaigns[k].discountPercentage
  {
    match FindIndex(Covers(pid), campaigns)
    case Some(k) =>
      assert forall m :: 0 <= m < k ==> !Covers(pid)(campaigns[m]);
      campaigns[k].discountPercentage
    case None => 0
  }

  /** Campaigns added after the one that first lists a product never change
      its discount; when no earlier campaign lists it, the later ones
      decide. */
  lemma DiscountAppend(a: seq<Campaign>, b: seq<Campaign>, pid: nat)
    ensures (exists i :: 0 <= i < |a| && pid in a[i].productIds) ==>
              ProductDiscount(a + b, pid) == ProductDiscount(a, pid)
    ensures (forall i :: 0 <= i < |a| ==> pid !in a[i].productIds) ==>
              ProductDiscount(a + b, pid) == ProductDiscount(b, pid)
  {
    FindIndexAppend(Covers(pid), a, b);
    if !forall i :: 0 <= i < |a| ==> pid !in a[i].productIds {
      var i :| 0 <= i < |a| && pid in a[i].productIds;
      assert Covers(pid)(a[i]);
    }
  }

  // ---------------------------------------------------------------------
  // The category filter

  function InCategory(cat: string): Product -> bool
  {
    (p: Product) => p.category == cat
  }

  /** An empty filter passes every product; otherwise only the products of
      exactly that (case-sensitive) category remain. */
  function CategoryStage(products: seq<Product>, cat: string): (r: seq<Product>)
    ensures cat == "" ==> r == products
    ensures cat != "" ==> forall p :: p in r <==> p in products && p.category == cat
  {
    if cat == "" then products else Filter(InCategory(cat), products)
  }

  // ---------------------------------------------------------------------
  // The search filter

  /** The filter callback: the term occurs, ignoring case, in the title or
      in the description. */
  function MatchesTerm(term: string): Product -> bool
  {
    (p: Product) => Includes(Lower(p.title), Lower(term)) || Includes(Lower(p.description), Lower(term))
  }

  /** An empty term passes every product; otherwise exactly the products
      whose lower-cased title or description contains the lower-cased term
      remain. */
  function SearchStage(products: seq<Product>, term: string): (r: seq<Product>)
    ensures term == "" ==> r == products
    ensures term != "" ==> forall p :: p in r <==>
              p in products &&
              (Includes(Lower(p.title), Lower(term)) || Includes(Lower(p.description), Lower(term)))
  {
    if term == "" then products else Filter(MatchesTerm(term), products)
  }

  /** Both filter stages keep the products they pass in their original
      order. */
  lemma StagesKeepOrder(products: seq<Product>, cat: string, term: string)
    ensures SubseqOf(CategoryStage(products, cat), products)
    ensures SubseqOf(SearchStage(CategoryStage(products, cat), term), CategoryStage(products, cat))
  {
    var c := CategoryStage(products, cat);
    if cat == "" { SubseqRefl(products); } else { FilterIsSubseq(InCategory(cat), products); }
    if term == "" { SubseqRefl(c); } else { FilterIsSubseq(MatchesTerm(term), c); }
  }

  /** Searching for a term and for its lower-case form gives the same
      products. */
  lemma SearchIgnoresCase(products: seq<Product>, term: string)
    ensures SearchStage(products, Lower(term)) == SearchStage(products, term)
  {
    if term != "" {
      LowerIdempotent(term);
      assert Lower(term) != "";
      FilterExt(MatchesTerm(Lower(term)), MatchesTerm(term), products);
    }
  }

  /** The empty-term guard changes nothing: every string contains the empty
      string, so the filter alone would keep everything too. */
  lemma EmptyTermMatchesAll(products: seq<Product>)
    ensures Filter(MatchesTerm(""), products) == products
  {
    forall p | p in products ensures MatchesTerm("")(p)
    {
      assert Lower("") == "";
    }
    FilterAll(MatchesTerm(""), products);
  }

  // ---------------------------------------------------------------------
  // The price sort

  function Price(p: Product): real { p.price }

  function NegatedPrice(p: Product): real { -p.price }

  /** The products of one price (the ones the comparator calls equal). */
  function PriceIs(v: real): Product -> bool
  {
    (p: Product) => p.price == v
  }

  /** `[...products].sort(cmp)`: a stable sort of a copy, ascending or
      descending by price; for any other option the comparator always
      returns 0 and the order is kept. The result is a permutation of the
      input. */
  function SortStage(products: seq<Product>, option: string): (r: seq<Product>)
    ensures multiset(r) == multiset(products)
    ensures option == PriceAsc ==> forall i, j :: 0 <= i < j < |r| ==> r[i].price <= r[j].price
    ensures option == PriceDesc ==> forall i, j :: 0 <= i < j < |r| ==> r[i].price >= r[j].price
    ensures option != PriceAsc && option != PriceDesc ==> r == products
  {
    if option == PriceAsc then
      SortBySpec(Price, products);
      var r := SortBy(Price, products);
      assert forall i, j :: 0 <= i < j < |r| ==> Price(r[i]) <= Price(r[j]);
      r
    else if option == PriceDesc then
      SortBySpec(NegatedPrice, products);
      var r := SortBy(NegatedPrice, products);
      assert forall i, j :: 0 <= i < j < |r| ==> NegatedPrice(r[i]) <= NegatedPrice(r[j]);
      r
    else
      products
  }

  /** The sort is stable: products of equal price keep their relative
      order. */
  lemma PriceIsKey(v: real, s: seq<Product>)
    ensures Filter(PriceIs(v), s) == Filter(KeyIs(Price, v), s)
    ensures Filter(PriceIs(v), s) == Filter(KeyIs(NegatedPrice, -v), s)
  {
    forall x | x in s ensures KeyIs(Price, v)(x) == PriceIs(v)(x) {
      assert KeyIs(Price, v)(x) == (Price(x) == v);
    }
    FilterExt(KeyIs(Price, v), PriceIs(v), s);
    forall x | x in s ensures KeyIs(NegatedPrice, -v)(x) == PriceIs(v)(x) {
      assert KeyIs(NegatedPrice, -v)(x) == (NegatedPrice(x) == -v);
    }
    FilterExt(KeyIs(NegatedPrice, -v), PriceIs(v), s);
  }

  /** The sort is stable: products of equal price keep their relative
      order. */
  lemma SortStageStable(products: seq<Product>, option: string, v: real)
    ensures Filter(PriceIs(v), SortStage(products, option)) == Filter(PriceIs(v), products)
  {
    if option == PriceAsc {
      var r := SortBy(Price, products);
      assert SortStage(products, option) == r;
      calc {
        Filter(PriceIs(v), r);
        { PriceIsKey(v, r); }
        Filter(KeyIs(Price, v), r);
        { SortByStable(Price, products, v); }
        Filter(KeyIs(Price, v), products);
        { PriceIsKey(v, products); }
        Filter(PriceIs(v), products);
      }
    } else if option == PriceDesc {
      var r := SortBy(NegatedPrice, products);
      assert SortStage(products, option) == r;
      calc {
        Filter(PriceIs(v), r);
        { PriceIsKey(v, r); }
        Filter(KeyIs(NegatedPrice, -v), r);
        { SortByStable(NegatedPrice, products, -v); }
        Filter(KeyIs(NegatedPrice, -v), products);
        { PriceIsKey(v, products); }
        Filter(PriceIs(v), products);
      }
    }
  }

  // ---------------------------------------------------------------------
  // The visible grid and the category list

  /** `sortedProducts`: the three stages in order. */
  function Visible(products: seq<Product>, cat: string, term: string, option: string): (r: seq<Product>)
    ensures multiset(r) == multiset(SearchStage(CategoryStage(products, cat), term))
  {
    SortStage(SearchStage(CategoryStage(products, cat), term), option)
  }

  /** A product is shown exactly when it is in the catalog, passes the
      category filter and matches the search term. */
  lemma VisibleMembers(products: seq<Product>, cat: string, term: string, option: string, p: Product)
    ensures p in Visible(products, cat, term, option) <==>
              p in products && (cat == "" || p.category == cat) &&
              (term == "" || Includes(Lower(p.title), Lower(term)) || Includes(Lower(p.description), Lower(term)))
  {
    var s := SearchStage(CategoryStage(products, cat), term);
    var r := Visible(products, cat, term, option);
    assert p in r <==> p in multiset(r);
    assert p in s <==> p in multiset(s);
  }

  /** `products.map(p => p.category)`, the list the Set is built from. */
  function Categories(products: seq<Product>): (r: seq<string>)
    ensures |r| == |products| && forall i :: 0 <= i < |products| ==> r[i] == products[i].category
  {
    seq(|products|, i requires 0 <= i < |products| => products[i].category)
  }

  /** Every product's category is listed exactly once, nothing else is, and
      the list follows the order in which categories first occur. */
  function UniqueCategories(products: seq<Product>): (r: seq<string>)
    ensures forall c :: c in r <==> c in Categories(products)
    ensures NoDups(r)
    ensures forall i, j :: 0 <= i < j < |r| ==>
              FirstIndex(Categories(products), r[i]) < FirstIndex(Categories(products), r[j])
  {
    var cs := Categories(products);
    DistinctFirstOccurrenceOrder(cs);
    Distinct(cs)
  }
}
