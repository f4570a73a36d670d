/** The records the storefront exchanges with its json-server back end.
    Identifiers are natural numbers, prices are exact reals (the browser's
    floating point and `toFixed(2)` display rounding are not modelled). */
module Shop {
  import opened Options

  /** A review as ReviewForm builds it: `id` is `Date.now().toString()` and
      `date` is an ISO timestamp, both supplied by the caller. */
  datatype Review = Review(
    id: string, username: string, title: string, content: string,
    rating: int, date: string)

  /** A record of the separate `reviews` collection: a review filed under a
      product id. */
  datatype ListedReview = ListedReview(productId: nat, review: Review)

  /** A catalog product; `reviews` is absent until a first review is added. */
  datatype Product = Product(
    id: nat, title: string, description: string, price: real,
    image: string, category: string, reviews: Option<seq<Review>>)

  /** A campaign as stored by the server (the posted fields plus an id). */
  datatype Campaign = Campaign(
    id: nat, title: string, description: string, image: string,
    productIds: seq<nat>, discountPercentage: int)

  /** The body of `POST /campaigns`. */
  datatype CampaignDraft = CampaignDraft(
    title: string, description: string, image: string,
    productIds: seq<nat>, discountPercentage: int)

  /** A cart line item; `price` is the unit price locked in when the line was
      created, `note` is absent until the shopper saves one. */
  datatype CartItem = CartItem(
    id: nat, productId: nat, title: string, price: real, image: string,
    quantity: int, note: Option<string>)

  /** The body of `POST /cart`: no id and no note. */
  datatype CartItemDraft = CartItemDraft(
    productId: nat, title: string, price: real, image: string, quantity: int)

  function ProductId(p: Product): nat { p.id }
  function CampaignId(c: Campaign): nat { c.id }
  function ItemId(x: CartItem): nat { x.id }
  function ItemProduct(x: CartItem): nat { x.productId }
  function ListedProduct(r: ListedReview): nat { r.productId }

  /** The record json-server stores for a posted cart item under `id`. */
  function CreatedItem(id: nat, d: CartItemDraft): CartItem
  {
    CartItem(id, d.productId, d.title, d.price, d.image, d.quantity, None)
  }

  /** The record json-server stores for a posted campaign under `id`. */
  function CreatedCampaign(id: nat, d: CampaignDraft): Campaign
  {
    Campaign(id, d.title, d.description, d.image, d.productIds, d.discountPercentage)
  }
}
