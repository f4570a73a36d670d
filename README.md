# Storefront core, modelled in Dafny

This project models the client-side logic of a small Next.js storefront. The storefront talks to a json-server back end with four collections: `products`, `campaigns`, `cart` and `reviews`. With the HTTP calls and the JSX stripped away, each component is a set of sequential rules, and those rules are what the modules here model:

- **LineItems**: the cart page's derived amounts. These are the subtotal (the reduce of `price * quantity`), the delivery fee (50 below a subtotal of 1000, otherwise 0), the total and the free-delivery hint. The module also holds the list operations the cart handlers apply.
- **Remote**: the json-server collections, as objects whose state each request changes.
  - Every request takes an explicit outcome `ok`.
  - A request for an id that is not stored fails, as json-server's 404 does.
  - A POST gives the new record the next id.
- **CartPage**: the shopping-cart page as a class.
  - Its state is the local copy of the cart, the note drafts, `loading`, and the checkout and thank-you flags.
  - UpdateQuantity (for a quantity of at least 1), UpdateNote and RemoveItem write to the server first and change the local copy only when that write succeeds. Each of them is proved to keep the local copy equal to the server's (`InSync`).
  - EmptyCart and HandlePayment keep `InSync` only when every delete succeeds. When some fail and others succeed, the two copies disagree (`LineItems.PartialEmptyDesyncs`).
  - EditNote, HandleCheckout, CancelCheckout and CloseThankYou make no request and leave the server untouched.
- **HomePage**: the catalog page's pure pipeline.
  - The first-match campaign discount.
  - The category filter, then the case-insensitive search, then a stable price sort of a copy.
  - The distinct categories in order of first occurrence.
- **ProductCard**: the discounted unit price, and the add-to-cart merge-or-create.
  - `AddedToCart` is the whole effect on the cart.
  - The lemmas show the merge changes only the first line of the product and never creates a second line.
- **CampaignForm**: the add-campaign page.
  - The selection toggle is treated as a list used as a set.
  - The discount input falls back to 10.
  - The submit handler validates, posts exactly the form's values, resets the form and reloads the list.
- **FilterBar**: the filter bar's transitions (both the `.tsx` and the `.jsx` version, which hold the same logic).
  - Changing the category resets search and sort.
  - The sort domain is `''`, `price_asc` and `price_desc`.
  - Category labels are capitalized.
- **NavigationBar**: the cart badge, with line count and summed total (both variants).
- **ReviewsList**: star rendering, with its 0..5 precondition, and the loading/empty/count branches. It holds both fetch variants:
  - the `.tsx` one queries `/reviews?productId=`;
  - the `.jsx` one takes the product's `reviews || []`.
- **ReviewForm**: appending a review to a product, and the submit handler with its validation, reset and callback.
- **Seqs**, **Text**, **Options** and **Shop** hold shared definitions:
  - `filter`, `find`, replace-by-key, `[...new Set(xs)]` and a stable sort by key;
  - ASCII case conversion, `includes`, `repeat` and capitalization;
  - `parseInt(x) || fallback`;
  - the record types.

Prices are exact reals. Whether a request succeeds is a parameter. The review id and date, which come from `Date.now()` and `new Date()`, are parameters too.

Where the code and the written design of the system disagree, the model follows the code:

- **Checkout.** The design completes checkout only after the cart is cleared. `emptyCart` instead catches its own errors, so `handlePayment` always shows the thank-you message (`CartPage.ShoppingCart.HandlePayment`).
- **Clearing the cart.** The design forbids leaving a partly cleared cart. When some deletions fail, the server loses the other items while the local list stays as it was (`LineItems.PartialEmptyDesyncs`).
- **Failures.** The design says failures are reported to the caller. Most handlers swallow them: only the console is told.
- **The campaign discount range.** The design requires a discount of 1 to 99. Only the browser's `min`/`max` attributes check it, and `handleSubmit` posts any non-zero integer (`Options.ParsedOr`).
- **Notes on new cart lines.** The design gives a new cart line the note `''`. ProductCard posts no note at all (`Shop.CreatedItem`).
- **Toggling twice.** Toggling a selected product twice does not restore the selection unless that product was the last one chosen: it moves to the end (`CampaignForm.ToggleTwiceSelected`).
- **Refresh after adding a campaign.** A failure to reload the campaign list after a successful post shows the error alert after the success alert. The form has already been reset (`CampaignForm.CampaignFormState.HandleSubmit`, outcome `Added(false)`).
- **Where reviews live.** ReviewForm writes reviews into the product's own `reviews` array. `ReviewsList.tsx` reads the separate `reviews` collection, so it never shows them. `ReviewsList.jsx` does, as `ReviewForm.ReviewFormState.HandleSubmit` states.

## Model

| member | source | states |
|---|---|---|
| Options.ParsedOr | app/add-campaign/page.tsx:142 | `parseInt(x) \|\| fallback`: NaN or 0 gives the fallback, any other parsed value is kept, and the result is never 0 when the fallback is not |
| Text.IncludesIff | app/page.jsx:54-55 | `includes` holds exactly when the needle occurs at some position of the haystack |
| Text.LowerIdempotent | app/page.jsx:54-55 | lower-casing twice is lower-casing once |
| Text.Repeat | app/components/ReviewsList.tsx:43 | `c.repeat(n)` has length n and every character is c |
| Text.CapitalizeSameLower | app/components/SearchSortBar.jsx:36 | a capitalized label differs from the category only in letter case |
| Seqs.Filter | app/page.jsx:49 | `filter` keeps exactly the elements passing the test and is no longer than its input |
| Seqs.FilterIsSubseq | app/page.jsx:53 | `filter` keeps its elements in their original order |
| Seqs.FilterNoDups | app/add-campaign/page.tsx:47 | filtering a list without duplicates leaves one without duplicates |
| Seqs.FindIndex | app/page.jsx:44 | `find` picks the first element passing the test, and none exists when it finds nothing |
| Seqs.FindIndexAppend | app/page.jsx:44 | `find` on a concatenation answers from the first part when that part has a match |
| Seqs.FilterHeadIsFind | app/components/ProductCard.jsx:21-22 | the first element of a filtered list is the one `find` locates |
| Seqs.Distinct | app/page.jsx:31 | `[...new Set(xs)]` holds every value of xs exactly once and nothing else |
| Seqs.DistinctFirstOccurrenceOrder | app/page.jsx:31 | the distinct values come in the order of their first occurrence |
| Seqs.SortBySpec | app/page.jsx:59-66 | the sort is a permutation of its input and ordered by the key |
| Seqs.SortByStable | app/page.jsx:59-66 | elements with equal keys keep their relative order |
| Seqs.ReplaceBy | app/cart/page.jsx:50-52 | replacing the record with a key keeps the length and the key at every position, and leaves every record with another key as it was |
| Seqs.ReplaceAt | app/cart/page.jsx:50-52 | with distinct keys, replacing by key changes exactly one position |
| Seqs.RemoveKeyAt | app/cart/page.jsx:82 | with distinct keys, dropping a key removes exactly the one record at its position |
| LineItems.Find | app/cart/page.jsx:41-42 | the item with that id when there is one, otherwise none |
| LineItems.DeliveryFee | app/cart/page.jsx:118 | the fee is 0 exactly when the subtotal is at least 1000 (1000 itself included), otherwise 50 |
| LineItems.FreeDeliveryHint | app/cart/page.jsx:239-243 | the hint shows only while a fee is charged, and its amount is then positive and exactly what is missing to reach 1000 |
| LineItems.SubtotalAppend | app/cart/page.jsx:117 | the subtotal of two lists together is the sum of their subtotals |
| LineItems.SubtotalIsLineSum | app/cart/page.jsx:117 | the left-fold reduce equals the plain sum of `price * quantity` over the items |
| LineItems.SubtotalNonNegative | app/cart/page.jsx:117 | with no negative price or quantity, the subtotal is not negative |
| LineItems.SubtotalReplaceAt | app/cart/page.jsx:117 | replacing a line changes the subtotal by the difference of the two line totals |
| LineItems.EmptyCartSnapshot | app/cart/page.jsx:117-119 | an empty cart has subtotal 0, fee 50 and total 50 |
| LineItems.QuantityUpdateMatchesPut | app/cart/page.jsx:44-52 | the local map over the list equals the server's replacement of the found item with the new quantity |
| LineItems.NoteUpdateMatchesPut | app/cart/page.jsx:63-71 | the local map over the list equals the server's replacement of the found item with the new note |
| LineItems.QuantityUpdateSubtotal | app/cart/page.jsx:50-52 | a quantity change moves the subtotal by exactly the difference between that line's new and old totals |
| LineItems.LineTotalDelta | app/cart/page.jsx:117 | setting a line's quantity changes its total by the changed units times its price |
| LineItems.RemoveSubtotal | app/cart/page.jsx:82 | removing a line takes exactly its line total off the subtotal |
| LineItems.QuantityUpdateKeepsPositive | app/cart/page.jsx:38-52 | because of the `< 1` guard, every quantity stays at least 1 |
| LineItems.NotesOfSpec | app/cart/page.jsx:21-24 | the rebuilt drafts have a key for every loaded id and nothing else, each mapped to the item's note or `''` |
| LineItems.DeleteEachRemaining | app/cart/page.jsx:91-93 | after the deletes the server holds exactly the items whose id was not deleted or whose delete failed |
| LineItems.DeleteEachOutcome | app/cart/page.jsx:91-96 | with distinct stored ids, all deletes succeed exactly when none of them failed |
| LineItems.DeleteAllOutcome | app/cart/page.jsx:88-99 | deleting every listed item succeeds exactly when no request failed, and then the server is empty; otherwise the failed items remain |
| LineItems.PartialEmptyDesyncs | app/cart/page.jsx:88-99 | when any delete succeeds the server no longer holds the list that the page keeps |
| Remote.RemoveIdsKeepsValid | app/cart/page.jsx:79 | deleting keeps the stored ids distinct and below the next id |
| Remote.Lookup | app/components/ReviewForm.jsx:26 | `GET /products/{id}` finds a product exactly when one has that id, and it is that product |
| Remote.LookupAfterPut | app/components/ReviewForm.jsx:26-46 | with distinct ids, reading a product back after its PUT yields the product written |
| Remote.CartStore.GetAll | app/cart/page.jsx:17 | `GET /cart` returns the stored list on success and nothing on failure |
| Remote.CartStore.QueryByProduct | app/components/ProductCard.jsx:19 | `GET /cart?productId=` returns the product's lines in stored order |
| Remote.CartStore.Put | app/cart/page.jsx:44-47 | `PUT /cart/{id}` succeeds exactly when the request goes through and the id is stored, and then replaces that record only |
| Remote.CartStore.Post | app/components/ProductCard.jsx:28-34 | `POST /cart` appends the body under the next id and no note |
| Remote.CartStore.Delete | app/cart/page.jsx:79 | `DELETE /cart/{id}` succeeds exactly when the id is stored, and then removes that record only |
| Remote.ProductStore.Get | app/components/ReviewForm.jsx:26 | `GET /products/{id}` returns the stored product on success |
| Remote.ProductStore.Put | app/components/ReviewForm.jsx:46 | `PUT /products/{id}` replaces the stored product with that id, and only it |
| Remote.CampaignStore.GetAll | app/add-campaign/page.tsx:83 | `GET /campaigns` returns the stored list on success |
| Remote.CampaignStore.Post | app/add-campaign/page.tsx:65-71 | `POST /campaigns` appends the body under the next id |
| Remote.ReviewStore.QueryByProduct | app/components/ReviewsList.tsx:30 | `GET /reviews?productId=` returns the reviews filed under that product, in stored order |
| CartPage.QuantityInputGuard | app/cart/page.jsx:199 | since the field passes `parseInt(v) \|\| 1`, the `< 1` guard rejects exactly the negative numbers typed |
| CartPage.DeleteEvery | app/cart/page.jsx:91-93 | the server ends as the deletes of the listed ids leave it, and the result says whether every one of them succeeded |
| CartPage.ShoppingCart.constructor | app/cart/page.jsx:9-13 | an empty list, no drafts, loading, both dialogs closed |
| CartPage.InitialNotes | app/cart/page.jsx:21-24 | the loop builds the drafts map that assigns each item's note (or `''`) in list order; with distinct ids its keys are exactly the loaded ids |
| CartPage.ShoppingCart.FetchCart | app/cart/page.jsx:15-31 | on success the list equals the server's and there is one draft per item (its note or `''`); on failure both are kept; loading ends false |
| CartPage.ShoppingCart.EditNote | app/cart/page.jsx:186 | typing changes only that item's draft |
| CartPage.ShoppingCart.UpdateQuantity | app/cart/page.jsx:37-56 | below 1, or with an unknown id, nothing is requested or changed; otherwise the server and the list change that item's quantity only when the write succeeds; sync is kept |
| CartPage.ShoppingCart.UpdateNote | app/cart/page.jsx:58-75 | the found item is written with its draft (or `''`), and the list changes that item's note only when the write succeeds; sync is kept |
| CartPage.ShoppingCart.RemoveItem | app/cart/page.jsx:77-86 | after a successful delete both the server and the list keep exactly the other items, in order; sync is kept |
| CartPage.ShoppingCart.EmptyCart | app/cart/page.jsx:88-100 | every listed id is deleted; the list becomes empty only if all deletes succeed, otherwise it stays; from a synced state the server keeps exactly the failed items |
| CartPage.ShoppingCart.HandleCheckout | app/cart/page.jsx:102-104 | opens the summary and changes nothing else |
| CartPage.ShoppingCart.CancelCheckout | app/cart/page.jsx:283 | closes the summary and changes nothing else |
| CartPage.ShoppingCart.HandlePayment | app/cart/page.jsx:106-115 | empties the cart as EmptyCart does, then closes the summary and opens the thank-you dialog, whatever the deletes did |
| CartPage.ShoppingCart.CloseThankYou | app/cart/page.jsx:301 | closes the thank-you dialog and changes nothing else |
| HomePage.ProductDiscount | app/page.jsx:43-46 | the discount of the first campaign in array order that lists the product, or 0 when none does |
| HomePage.DiscountAppend | app/page.jsx:43-46 | campaigns after the first listing one never change the discount; without a listing campaign in front, the later ones decide |
| HomePage.CategoryStage | app/page.jsx:48-50 | an empty filter keeps everything; otherwise exactly the products of that exact category |
| HomePage.SearchStage | app/page.jsx:52-57 | an empty term keeps everything; otherwise exactly the products whose lower-cased title or description contains the lower-cased term |
| HomePage.StagesKeepOrder | app/page.jsx:48-57 | both filter stages yield order-preserving subsequences of their input |
| HomePage.SearchIgnoresCase | app/page.jsx:54-55 | a term and its lower-case form select the same products |
| HomePage.EmptyTermMatchesAll | app/page.jsx:52-57 | the empty-term guard changes nothing, since every string contains `''` |
| HomePage.SortStage | app/page.jsx:59-66 | a permutation of its input: ascending prices for `price_asc`, descending for `price_desc`, unchanged for any other option |
| HomePage.SortStageStable | app/page.jsx:59-66 | products of equal price keep their relative order |
| HomePage.Visible | app/page.jsx:48-66 | the grid is a permutation of the two filter stages' output |
| HomePage.VisibleMembers | app/page.jsx:48-66 | a product is shown exactly when it is in the catalog, in the category (or none chosen) and matches the term (or none typed) |
| HomePage.UniqueCategories | app/page.jsx:31 | every product category exactly once, nothing else, in order of first occurrence |
| ProductCard.DiscountedPrice | app/components/ProductCard.jsx:12 | the price itself when the discount is not positive; strictly between 0 and the price for a discount of 1 to 99 on a positive price |
| ProductCard.DiscountedPriceRecovers | app/components/ProductCard.jsx:12 | below 100 percent, dividing by the kept fraction gives back the list price |
| ProductCard.DiscountedPriceMonotone | app/components/ProductCard.jsx:12 | for any two discounts, zero and negative ones included, the larger never gives a higher price |
| ProductCard.TwentyPercentOffHundred | app/components/ProductCard.jsx:12 | 100 at 20 percent costs 80 |
| ProductCard.AddedToCart | app/components/ProductCard.jsx:19-34 | the product has a line afterwards, no line is lost, and lines of other products are untouched |
| ProductCard.FirstLineOfProduct | app/components/ProductCard.jsx:21-22 | the merge target is the first line of that product |
| ProductCard.AddMergesIntoFirstLine | app/components/ProductCard.jsx:21-26 | with existing lines only the first changes, and only its quantity, which grows by the amount added; its stored price is kept |
| ProductCard.AddCreatesOneLine | app/components/ProductCard.jsx:27-34 | without a line, exactly one line is appended, with the discounted price, the posted fields, the new id and no note |
| ProductCard.AddKeepsOneLinePerProduct | app/components/ProductCard.jsx:19-34 | a cart with at most one line per product keeps that shape |
| ProductCard.TwoAddsMerge | app/components/ProductCard.jsx:19-34 | two adds of the same new product leave one line holding both quantities |
| ProductCard.MergeIsUpdate | app/components/ProductCard.jsx:23-26 | the merge is the update of that one position |
| ProductCard.SubtotalGrowLine | app/components/ProductCard.jsx:25 | growing one line's quantity by n raises the subtotal by n times that line's price |
| ProductCard.LineTotalGrows | app/components/ProductCard.jsx:25 | a line's total grows by n times its price when n units are added |
| ProductCard.AddSubtotalCreate | app/components/ProductCard.jsx:28-34 | a new line raises the subtotal by its quantity times the discounted price |
| ProductCard.MergePutIsAdd | app/components/ProductCard.jsx:21-26 | the PUT of the first looked-up line with the summed quantity is AddedToCart |
| ProductCard.CreatePostIsAdd | app/components/ProductCard.jsx:27-34 | the POST of the body is AddedToCart |
| ProductCard.CardState.constructor | app/components/ProductCard.jsx:8-10 | quantity 1, not adding |
| ProductCard.CardState.Draft | app/components/ProductCard.jsx:28-34 | the posted body carries the product, title, image, quantity and the discounted price |
| ProductCard.CardState.SetQuantityInput | app/components/ProductCard.jsx:75 | `parseInt(v) \|\| 1`: the quantity is never 0 |
| ProductCard.CardState.AddToCart | app/components/ProductCard.jsx:14-43 | below 1 nothing is requested; otherwise the cart becomes AddedToCart exactly when both requests succeed, and isAdding ends false in every outcome |
| CampaignForm.Toggle | app/add-campaign/page.tsx:44-52 | exactly the toggled id's membership flips; a selected id is removed with the others kept in order; an unselected one is appended last |
| CampaignForm.ToggleKeepsNoDups | app/add-campaign/page.tsx:44-52 | the selection never holds an id twice |
| CampaignForm.ToggleTwiceUnselected | app/add-campaign/page.tsx:44-52 | toggling an unselected id twice restores the selection |
| CampaignForm.DropLast | app/add-campaign/page.tsx:47 | removing the last, unique element and appending it again restores the list |
| CampaignForm.ToggleTwiceSelected | app/add-campaign/page.tsx:44-52 | toggling a selected id twice moves it to the end, which restores the selection exactly when it was last |
| CampaignForm.NewCampaignDiscount | app/add-campaign/page.tsx:65-71 | a new campaign's discount applies to each listed product that no earlier campaign lists |
| CampaignForm.CampaignFormState.constructor | app/add-campaign/page.tsx:14-22 | empty fields, discount 10, empty selection |
| CampaignForm.CampaignFormState.ToggleProduct | app/add-campaign/page.tsx:44-52 | the selection becomes its toggle, and nothing else changes |
| CampaignForm.CampaignFormState.SetDiscount | app/add-campaign/page.tsx:142 | `parseInt(v) \|\| 10`: never 0, and nothing else changes |
| CampaignForm.CampaignFormState.HandleSubmit | app/add-campaign/page.tsx:54-91 | incomplete forms request nothing and change nothing; otherwise exactly the form's values are posted, success resets the fields and reloads the list, failure keeps the form, and submitting ends false |
| FilterBar.CategoryLabel | app/components/SearchSortBar.tsx:47 | the first character upper-cased, the rest as typed, equal to the category up to case |
| FilterBar.CategoryOptions | app/components/SearchSortBar.tsx:45-48 | "All Categories" with value `''` first, then one entry per category with the raw value and the capitalized label |
| FilterBar.CategoryOptionValuesDistinct | app/components/SearchSortBar.jsx:34-37 | distinct non-empty categories give distinct option values |
| FilterBar.Filters.constructor | app/page.jsx:14-16 | all three filters start empty |
| FilterBar.Filters.HandleCategoryChange | app/components/SearchSortBar.tsx:25-29 | the category is set and search and sort are reset, whatever they were, "All Categories" included |
| FilterBar.Filters.SetSearchTerm | app/components/SearchSortBar.tsx:59 | only the search term changes |
| FilterBar.Filters.SetSortOption | app/components/SearchSortBar.tsx:66-73 | only the sort changes, and it stays within the three offered values |
| FilterBar.Filters.HandleListClick | app/components/SearchSortBar.jsx:21-23 | no state changes |
| FilterBar.CategoryChangeShowsCategory | app/components/SearchSortBar.tsx:25-29 | right after a category change the grid is exactly that category's products in catalog order |
| NavigationBar.LinesAtMostUnits | app/components/NavigationBar.tsx:28 | with positive quantities the line count is at most the number of units, equal exactly when every line holds one unit |
| NavigationBar.CartBadge.constructor | app/components/NavigationBar.tsx:18-19 | both values start at 0 |
| NavigationBar.CartBadge.FetchCartData | app/components/NavigationBar.jsx:13-25 | on success both values come from the same response: the line count, and the cart page's subtotal without the fee; on failure both are kept |
| ReviewsList.RenderStars | app/components/ReviewsList.tsx:42-44 | for 0 to 5, five characters: `rating` filled stars, then hollow ones |
| ReviewsList.StarsShowRating | app/components/ReviewsList.jsx:27-29 | the number of filled stars gives the rating back |
| ReviewsList.ViewOf | app/components/ReviewsList.tsx:46-56 | a loading message while loading, the no-reviews message for an empty list, otherwise the count of reviews |
| ReviewsList.ProductReviews | app/components/ReviewsList.jsx:16 | `product.reviews \|\| []` |
| ReviewsList.CollectionReviewsList.FetchReviews | app/components/ReviewsList.tsx:26-37 | on success exactly the reviews filed under the product, in order; on failure kept; loading ends false |
| ReviewsList.EmbeddedReviewsList.FetchReviews | app/components/ReviewsList.jsx:11-22 | on success the product's reviews or `[]`; on failure (a missing product included) kept; loading ends false |
| ReviewForm.WithReview | app/components/ReviewForm.jsx:40-43 | the reviews are the old ones (or none) with the new one last, and every other product field is kept |
| ReviewForm.AppendReview | app/components/ReviewForm.jsx:24-46 | the product is rewritten with the review appended exactly when it exists and both requests succeed, and then reads back as written; otherwise the store is unchanged |
| ReviewForm.ReviewFormState.ClearAndNotify | app/components/ReviewForm.jsx:48-53 | the fields are reset to empty with rating 5, and the callback count grows by one |
| ReviewForm.ReviewFormState.constructor | app/components/ReviewForm.jsx:8-12 | empty fields, rating 5, not submitting |
| ReviewForm.ReviewFormState.SetRating | app/components/ReviewForm.jsx:82-89 | only the rating changes, and it stays within 1 to 5 |
| ReviewForm.ReviewFormState.HandleSubmit | app/components/ReviewForm.jsx:14-59 | without name or text nothing happens; a review is added, the fields reset and the callback called once exactly when both requests succeed, and then the product read back has that review last; otherwise nothing changes; isSubmitting ends false |

## Left out

- HTTP, URLs and the JSON server itself are left out. Each request is a method of the store objects in `Remote`, with its success given as a parameter.
- `Promise.all` in emptyCart runs its deletes concurrently. The model issues them one after another in list order; which ones fail is the parameter `failed`. The set of items left does not depend on the order.
- The lookup-then-write race in addToCart is left out. So are out-of-order responses and stale responses: every handler runs to completion before the next starts.
- The three-second polling of the navigation bar is left out. `FetchCartData` models one tick.
- The initial `Promise.all` fetches of the catalog page and the add-campaign page are left out. These are the products, campaigns and category list as first loaded. The catalog's computations take those lists as inputs.
- Floating point and `toFixed(2)` are left out. Prices are exact reals, so `price * (1 - d / 100)` carries no rounding.
- Case conversion covers ASCII letters only. Locale-sensitive `toLowerCase` and `toUpperCase` are not modelled.
- `parseInt` is left out. The parsed integer, or none for NaN, is an input.
- `Date.now()` and `new Date().toISOString()` are left out: the review id and date are parameters. `toLocaleDateString` display is not modelled.
- JSX, Bootstrap modals, `alert` and `console.error` are left out. The alerts of the add-campaign page appear only as the `SubmitOutcome` of its submit handler.
- The browser's form validation is left out: the `required`, `min` and `max` attributes. The handlers' own checks are modelled.
- The campaign carousel (`app/components/CampaignCarousel.tsx`) is not part of this model. It only fetches and renders campaigns.
- The build configuration (`eslint.config.js`, `next.config.js`) and the product page (`app/product/[id]/page.tsx`) are not part of this model.
- ProductCard.AddedToCart: the subtotal after a merge is not stated in one formula. It follows from `ProductCard.MergeIsUpdate` together with `ProductCard.SubtotalGrowLine`.
- ProductCard.CardState.AddToCart: only the final state is stated, not the intermediate `isAdding == true` while the requests are pending. The same holds for the `loading := true` step of the review fetches.
- ReviewsList.RenderStars: `'★'.repeat(rating) + '☆'.repeat(5 - rating)` throws a RangeError for a rating above 5 (or below 0) read from the reviews collection. The model requires a rating of 0 to 5 and does not model that throw.
- FilterBar.Filters.SetSortOption: the sort value comes from the selector's three options, so the method requires one of them.
- ReviewForm.ReviewFormState.SetRating: the rating comes from the selector's options 1 to 5, so the method requires one of them.
