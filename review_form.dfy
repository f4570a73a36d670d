/** The review form (app/components/ReviewForm.jsx): it reads the product,
    appends the new review to the product's own `reviews` array and writes
    the whole product back. */
module ReviewForm {
  import opened Options
  import opened Seqs
  import opened Shop
  import opened Remote
  import opened ReviewsList

  /** The default (and reset) rating; the selector offers 1 to 5. */
  const DefaultRating: int := 5

  /** `{...product, reviews: [...(product.reviews || []), review]}`: the
      review comes last after the existing ones (none when the field is
      absent), and every other field is kept. */
  function WithReview(p: Product, review: Review): (q: Product)
    ensures ProductReviews(q) == ProductReviews(p) + [review]
    ensures q.id == p.id && q.title == p.title && q.description == p.description &&
            q.price == p.price && q.image == p.image && q.category == p.category
  {
    p.(reviews := Some(ProductReviews(p) + [review]))
  }

  /** The two requests of handleSubmit: `GET /products/{pid}`, then a `PUT`
      of that product with `review` appended. `added` says whether both
      succeeded; the product read back is then the one written. */
  method AppendReview(store: ProductStore, pid: nat, review: Review, getOk: bool, putOk: bool)
      returns (added: bool)
    requires store.Valid()
    modifies store
    ensures added <==> getOk && putOk && HasKey(ProductId, old(store.products), pid)
    ensures added ==>
              var before := Lookup(old(store.products), pid).value;
              store.products == ReplaceBy(ProductId, old(store.products), WithReview(before, review)) &&
              Lookup(store.products, pid) == Some(WithReview(before, review))
    ensures !added ==> store.products == old(store.products)
    ensures store.Valid()
  {
    added := false;
    var response := store.Get(pid, getOk);
    if response.Some? {
      var updated := WithReview(response.value, review);
      added := store.Put(updated, putOk);
      if added {
        LookupAfterPut(old(store.products), updated);
      }
    }
  }

  class ReviewFormState {
    const productId: nat
    var username: string
    var title: string
    var content: string
    var rating: int
    var isSubmitting: bool
    /** How many times `onReviewAdded` has been called. */
    var notified: nat

    /** The rating is one the selector offers. */
    predicate Valid()
      reads this
    {
      1 <= rating <= MaxRating
    }

    constructor (pid: nat)
      ensures productId == pid && username == "" && title == "" && content == ""
      ensures rating == DefaultRating && !isSubmitting && notified == 0
      ensures Valid()
    {
      productId := pid;
      username := "";
      title := "";
      content := "";
      rating := DefaultRating;
      isSubmitting := false;
      notified := 0;
    }

    /** Choosing a rating; the selector offers only 1 to 5. */
    method SetRating(value: int)
      requires 1 <= value <= MaxRating
      modifies this
      ensures rating == value && Valid()
      ensures username == old(username) && title == old(title) && content == old(content)
      ensures isSubmitting == old(isSubmitting) && notified == old(notified)
    {
      rating := value;
    }

    /** The end of a successful submit: the fields are reset and
        `onReviewAdded` is called. */
    method ClearAndNotify()
      modifies this
      ensures username == "" && title == "" && content == "" && rating == DefaultRating
      ensures notified == old(notified) + 1 && isSubmitting == old(isSubmitting)
    {
      username := "";
      title := "";
      content := "";
      rating := DefaultRating;
      notified := notified + 1;
    }

    /** handleSubmit: without a name or a text no request is made and nothing
        changes (the title is optional). Otherwise the product is read, the
        review (id and date supplied by the caller) appended, and the product
        written back; only when both requests succeed are the fields reset
        and `onReviewAdded` called, once. `added` says whether it was. */
    method HandleSubmit(store: ProductStore, getOk: bool, putOk: bool, reviewId: string, date: string)
        returns (added: bool)
      requires store.Valid()
      modifies this, store
      ensures added <==> old(username) != "" && old(content) != "" && getOk && putOk &&
                         HasKey(ProductId, old(store.products), productId)
      ensures added ==>
                var review := Review(reviewId, old(username), old(title), old(content), old(rating), date);
                var before := Lookup(old(store.products), productId).value;
                store.products == ReplaceBy(ProductId, old(store.products), WithReview(before, review)) &&
                Lookup(store.products, productId) == Some(WithReview(before, review)) &&
                ProductReviews(Lookup(store.products, productId).value) == ProductReviews(before) + [review] &&
                username == "" && title == "" && content == "" && rating == DefaultRating &&
                notified == old(notified) + 1
      ensures !added ==>
                store.products == old(store.products) &&
                username == old(username) && title == old(title) && content == old(content) &&
                rating == old(rating) && notified == old(notified)
      ensures old(username) != "" && old(content) != "" ==> !isSubmitting
      ensures old(username) == "" || old(content) == "" ==> isSubmitting == old(isSubmitting)
      ensures old(Valid()) ==> Valid()
      ensures store.Valid()
    {
      if username == "" || content == "" {
        return false;
      }
      isSubmitting := true;
      var review := Review(reviewId, username, title, content, rating, date);
      added := AppendReview(store, productId, review, getOk, putOk);
      if added {
        ClearAndNotify();
      }
      isSubmitting := false;
    }
  }
}
