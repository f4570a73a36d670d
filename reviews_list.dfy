/** A product's review list (app/components/ReviewsList.tsx, which reads the
    `reviews` collection, and its .jsx twin, which reads the product's own
    `reviews` array): the star rendering, the loading/empty/count branches
    and the fetch. */
module ReviewsList {
  import opened Options
  import opened Seqs
  import opened Shop
  import opened Text
  import opened Remote

  const FilledStar: char := '★'
  const HollowStar: char := '☆'
  const MaxRating: int := 5

  /** `'★'.repeat(rating) + '☆'.repeat(5 - rating)`; `repeat` throws on a
      negative count, so the rating must lie in 0..5. */
  function RenderStars(rating: int): (stars: string)
    requires 0 <= rating <= MaxRating
    ensures |stars| == MaxRating
    ensures forall i :: 0 <= i < |stars| ==> stars[i] == (if i < rating then FilledStar else HollowStar)
  {
    Repeat(FilledStar, rating) + Repeat(HollowStar, MaxRating - rating)
  }

  function IsFilled(c: char): bool { c == FilledStar }

  /** The number of filled stars in a string. */
  function FilledCount(s: string): nat
  {
    |Filter(IsFilled, s)|
  }

  /** The rating can be read back from its stars: rendering is
      injective. */
  lemma StarsShowRating(rating: int)
    requires 0 <= rating <= MaxRating
    ensures FilledCount(RenderStars(rating)) == rating
  {
    var filled := Repeat(FilledStar, rating);
    var hollow := Repeat(HollowStar, MaxRating - rating);
    FilterConcat(IsFilled, filled, hollow);
    FilterAll(IsFilled, filled);
    FilterNone(IsFilled, hollow);
  }

  /** The three branches of the list: a loading message, the "no reviews
      yet" message, or a header with the number of reviews and one card per
      review. */
  datatype ListView = LoadingMessage | NoReviewsMessage | ReviewCards(count: nat)

  function ViewOf<T>(loading: bool, reviews: seq<T>): (v: ListView)
    ensures v == LoadingMessage <==> loading
    ensures v == NoReviewsMessage <==> !loading && |reviews| == 0
    ensures v.ReviewCards? ==> v.count == |reviews| > 0
  {
    if loading then LoadingMessage
    else if |reviews| == 0 then NoReviewsMessage
    else ReviewCards(|reviews|)
  }

  /** `product.reviews || []`. */
  function ProductReviews(p: Product): (r: seq<Review>)
    ensures p.reviews.None? ==> r == []
    ensures p.reviews.Some? ==> r == p.reviews.value
  {
    match p.reviews
    case None => []
    case Some(rs) => rs
  }

  /** The .tsx list: `GET /reviews?productId=...`. */
  class CollectionReviewsList {
    const productId: nat
    var reviews: seq<ListedReview>
    var loading: bool

    constructor (pid: nat)
      ensures productId == pid && reviews == [] && loading
    {
      productId := pid;
      reviews := [];
      loading := true;
    }

    /** fetchReviews: loading is raised, then on success the list becomes
        the stored reviews filed under this product, in stored order; on
        failure it stays as it was; loading ends false either way. */
    method FetchReviews(store: ReviewStore, ok: bool)
      modifies this
      ensures ok ==> reviews == Filter(KeyIs(ListedProduct, productId), store.entries)
      ensures ok ==> forall r :: r in reviews <==> r in store.entries && r.productId == productId
      ensures !ok ==> reviews == old(reviews)
      ensures !loading
    {
      loading := true;
      var response := store.QueryByProduct(productId, ok);
      if response.Some? {
        reviews := response.value;
        assert forall r :: KeyIs(ListedProduct, productId)(r) <==> r.productId == productId;
      }
      loading := false;
    }
  }

  /** The .jsx list: `GET /products/{id}` and its `reviews` array. */
  class EmbeddedReviewsList {
    const productId: nat
    var reviews: seq<Review>
    var loading: bool

    constructor (pid: nat)
      ensures productId == pid && reviews == [] && loading
    {
      productId := pid;
      reviews := [];
      loading := true;
    }

    /** fetchReviews: on success the list becomes the product's reviews, or
        [] when it has none; a failed request (a missing product is a 404)
        leaves it as it was; loading ends false either way. */
    method FetchReviews(store: ProductStore, ok: bool)
      modifies this
      ensures ok && HasKey(ProductId, store.products, productId) ==>
                reviews == ProductReviews(Lookup(store.products, productId).value)
      ensures !(ok && HasKey(ProductId, store.products, productId)) ==> reviews == old(reviews)
      ensures !loading
    {
      loading := true;
      var response := store.Get(productId, ok);
      if response.Some? {
        reviews := ProductReviews(response.value);
      }
      loading := false;
    }
  }
}
