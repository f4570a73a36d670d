/** The shopping-cart page (app/cart/page.jsx): a local copy of the cart,
    the per-item note drafts, and the checkout and thank-you flags. Every
    handler first writes to the server and changes the local copy only when
    that write succeeds. */
module CartPage {
  import opened Options
  import opened Seqs
  import opened Shop
  import opened LineItems
  import opened Remote

  /** The quantity field hands `parseInt(value) || 1` to updateQuantity, so
      the `< 1` guard rejects exactly the negative numbers typed. */
  lemma QuantityInputGuard(parsed: Option<int>)
    ensures ParsedOr(parsed, 1) < 1 <==> parsed.Some? && parsed.value < 0
  {
  }

  /** `DELETE /cart/{id}` for each id in turn; the ids in `failed` are the
      requests that fail. `allOk` says whether every request succeeded. */
  method DeleteEvery(store: CartStore, ids: seq<nat>, failed: set<nat>) returns (allOk: bool)
    requires store.Valid()
    modifies store
    ensures store.items == DeleteEach(old(store.items), ids, failed).0
    ensures allOk == DeleteEach(old(store.items), ids, failed).1
    ensures store.Valid() && store.nextId == old(store.nextId)
  {
    allOk := true;
    for i := 0 to |ids|
      invariant store.items == DeleteEach(old(store.items), ids[..i], failed).0
      invariant allOk == DeleteEach(old(store.items), ids[..i], failed).1
      invariant store.Valid() && store.nextId == old(store.nextId)
    {
      assert ids[..i + 1][..i] == ids[..i];
      var success := store.Delete(ids[i], ids[i] !in failed);
      allOk := allOk && success;
    }
    assert ids[..|ids|] == ids;
  }

  /** The `forEach` of fetchCart: `notes[item.id] = item.note || ''` for
      each loaded item, first to last. */
  method InitialNotes(data: seq<CartItem>) returns (initialNotes: map<nat, string>)
    ensures initialNotes == NotesOf(data)
    ensures DistinctIds(data) ==>
              initialNotes.Keys == IdSet(data) &&
              (forall i :: 0 <= i < |data| ==> initialNotes[data[i].id] == NoteText(data[i].note))
  {
    initialNotes := map[];
    for i := 0 to |data|
      invariant initialNotes == NotesOf(data[..i])
    {
      assert data[..i + 1][..i] == data[..i];
      initialNotes := initialNotes[data[i].id := NoteText(data[i].note)];
    }
    assert data[..|data|] == data;
    if DistinctIds(data) {
      NotesOfSpec(data);
    }
  }

  class ShoppingCart {
    var cartItems: seq<CartItem>
    var loading: bool
    var notes: map<nat, string>
    var showCheckout: bool
    var showThankYou: bool

    /** The local copy agrees with the server's. */
    predicate InSync(store: CartStore)
      reads this, store
    {
      cartItems == store.items
    }

    constructor ()
      ensures cartItems == [] && loading && notes == map[]
      ensures !showCheckout && !showThankYou
    {
      cartItems := [];
      loading := true;
      notes := map[];
      showCheckout := false;
      showThankYou := false;
    }

    /** fetchCart: on success the list is replaced wholesale and the note
        drafts are rebuilt, one per loaded item; loading ends either way. */
    method FetchCart(store: CartStore, ok: bool)
      requires store.Valid()
      modifies this
      ensures ok ==> InSync(store) && notes == NotesOf(store.items)
      ensures ok ==> notes.Keys == IdSet(cartItems) &&
                     forall i :: 0 <= i < |cartItems| ==> notes[cartItems[i].id] == NoteText(cartItems[i].note)
      ensures !ok ==> cartItems == old(cartItems) && notes == old(notes)
      ensures !loading
      ensures showCheckout == old(showCheckout) && showThankYou == old(showThankYou)
    {
      var response := store.GetAll(ok);
      if response.Some? {
        var data := response.value;
        cartItems := data;
        notes := InitialNotes(data);
      }
      loading := false;
    }

    /** Typing in an item's note field changes only that draft. */
    method EditNote(id: nat, text: string)
      modifies this
      ensures notes == old(notes)[id := text]
      ensures cartItems == old(cartItems) && loading == old(loading)
      ensures showCheckout == old(showCheckout) && showThankYou == old(showThankYou)
    {
      notes := notes[id := text];
    }

    /** updateQuantity: a quantity below 1, or an id not in the list, makes
        no request; otherwise the found item is written back with the new
        quantity, and on success only that item's quantity changes. */
    method UpdateQuantity(store: CartStore, id: nat, q: int, ok: bool)
      requires store.Valid()
      modifies this, store
      ensures q < 1 || !HasId(old(cartItems), id) ==>
                cartItems == old(cartItems) && store.items == old(store.items)
      ensures q >= 1 && HasId(old(cartItems), id) ==>
                var x := Find(old(cartItems), id).value.(quantity := q);
                var written := ok && HasId(old(store.items), id);
                store.items == (if written then ReplaceById(old(store.items), x) else old(store.items)) &&
                cartItems == (if written then MapQuantity(old(cartItems), id, q) else old(cartItems))
      ensures old(InSync(store)) ==> InSync(store)
      ensures store.Valid() && store.nextId == old(store.nextId)
      ensures notes == old(notes) && loading == old(loading)
      ensures showCheckout == old(showCheckout) && showThankYou == old(showThankYou)
    {
      if q < 1 {
        return;
      }
      var item := Find(cartItems, id);
      if item.None? {
        return;
      }
      var success := store.Put(item.value.(quantity := q), ok);
      if success {
        if cartItems == old(store.items) {
          QuantityUpdateMatchesPut(cartItems, id, q);
        }
        cartItems := MapQuantity(cartItems, id, q);
      }
    }

    /** updateNote: the found item is written back with the note draft (or
        '' when there is none); on success only that item's note changes. */
    method UpdateNote(store: CartStore, id: nat, ok: bool)
      requires store.Valid()
      modifies this, store
      ensures !HasId(old(cartItems), id) ==>
                cartItems == old(cartItems) && store.items == old(store.items)
      ensures HasId(old(cartItems), id) ==>
                var text := NoteFor(notes, id);
                var x := Find(old(cartItems), id).value.(note := Some(text));
                var written := ok && HasId(old(store.items), id);
                store.items == (if written then ReplaceById(old(store.items), x) else old(store.items)) &&
                cartItems == (if written then MapNote(old(cartItems), id, text) else old(cartItems))
      ensures old(InSync(store)) ==> InSync(store)
      ensures store.Valid() && store.nextId == old(store.nextId)
      ensures notes == old(notes) && loading == old(loading)
      ensures showCheckout == old(showCheckout) && showThankYou == old(showThankYou)
    {
      var item := Find(cartItems, id);
      if item.None? {
        return;
      }
      var text := NoteFor(notes, id);
      var success := store.Put(item.value.(note := Some(text)), ok);
      if success {
        if cartItems == old(store.items) {
          NoteUpdateMatchesPut(cartItems, id, text);
        }
        cartItems := MapNote(cartItems, id, text);
      }
    }

    /** removeItem: after a successful delete the list keeps exactly the
        items with other ids, in their order. */
    method RemoveItem(store: CartStore, id: nat, ok: bool)
      requires store.Valid()
      modifies this, store
      ensures var written := ok && HasId(old(store.items), id);
              store.items == (if written then RemoveId(old(store.items), id) else old(store.items)) &&
              cartItems == (if written then RemoveId(old(cartItems), id) else old(cartItems))
      ensures old(InSync(store)) ==> InSync(store)
      ensures store.Valid() && store.nextId == old(store.nextId)
      ensures notes == old(notes) && loading == old(loading)
      ensures showCheckout == old(showCheckout) && showThankYou == old(showThankYou)
    {
      var success := store.Delete(id, ok);
      if success {
        cartItems := RemoveId(cartItems, id);
      }
    }

    /** emptyCart: one delete per listed item, all of them issued; the ids
        in `failed` are the requests that fail. The list is cleared only if
        every delete succeeded, and is otherwise left as it was. */
    method EmptyCart(store: CartStore, failed: set<nat>)
      requires store.Valid()
      modifies this, store
      ensures var (rest, allOk) := DeleteEach(old(store.items), Ids(old(cartItems)), failed);
              store.items == rest && cartItems == (if allOk then [] else old(cartItems))
      ensures old(InSync(store)) ==>
                store.items == RemoveIds(old(cartItems), IdSet(old(cartItems)) - failed) &&
                ((forall i :: 0 <= i < |old(cartItems)| ==> old(cartItems)[i].id !in failed) ==> InSync(store) && cartItems == [])
      ensures store.Valid() && store.nextId == old(store.nextId)
      ensures notes == old(notes) && loading == old(loading)
      ensures showCheckout == old(showCheckout) && showThankYou == old(showThankYou)
    {
      ghost var wasInSync := InSync(store);
      var allOk := DeleteEvery(store, Ids(cartItems), failed);
      if allOk {
        cartItems := [];
      }
      if wasInSync {
        DeleteAllOutcome(old(cartItems), failed);
      }
    }

    /** "Proceed to Checkout" opens the order summary. */
    method HandleCheckout()
      modifies this
      ensures showCheckout && showThankYou == old(showThankYou)
      ensures cartItems == old(cartItems) && notes == old(notes) && loading == old(loading)
    {
      showCheckout := true;
    }

    /** "Cancel" (or closing the summary) hides it and changes nothing else. */
    method CancelCheckout()
      modifies this
      ensures !showCheckout && showThankYou == old(showThankYou)
      ensures cartItems == old(cartItems) && notes == old(notes) && loading == old(loading)
    {
      showCheckout := false;
    }

    /** handlePayment: empties the cart, then closes the summary and opens
        the thank-you message. emptyCart reports no failure to its caller,
        so the thank-you message appears even when deletes failed. */
    method HandlePayment(store: CartStore, failed: set<nat>)
      requires store.Valid()
      modifies this, store
      ensures var (rest, allOk) := DeleteEach(old(store.items), Ids(old(cartItems)), failed);
              store.items == rest && cartItems == (if allOk then [] else old(cartItems))
      ensures !showCheckout && showThankYou
      ensures store.Valid() && store.nextId == old(store.nextId)
      ensures notes == old(notes) && loading == old(loading)
    {
      EmptyCart(store, failed);
      showCheckout := false;
      showThankYou := true;
    }

    /** Closing the thank-you message. */
    method CloseThankYou()
      modifies this
      ensures !showThankYou && showCheckout == old(showCheckout)
      ensures cartItems == old(cartItems) && notes == old(notes) && loading == old(loading)
    {
      showThankYou := false;
    }
  }
}
