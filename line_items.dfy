/** Pure rules over a list of cart line items: the lookups and array updates
    the cart page applies to its local copy after a confirmed write, and the
    derived subtotal, delivery fee and total (app/cart/page.jsx). */
module LineItems {
  import opened Options
  import opened Seqs
  import opened Shop

  /** Below this subtotal a flat delivery fee is charged. */
  const FreeDeliveryThreshold: real := 1000.0
  const DeliveryCharge: real := 50.0

  predicate DistinctIds(s: seq<CartItem>) { DistinctBy(ItemId, s) }

  predicate HasId(s: seq<CartItem>, id: nat) { HasKey(ItemId, s, id) }

  /** Every id in `s` is below `n`, the id the server hands out next. */
  predicate IdsBelow(s: seq<CartItem>, n: nat)
  {
    forall i :: 0 <= i < |s| ==> s[i].id < n
  }

  /** The ids of `s`, in order. */
  function Ids(s: seq<CartItem>): (r: seq<nat>)
    ensures |r| == |s| && forall i :: 0 <= i < |s| ==> r[i] == s[i].id
  {
    seq(|s|, i requires 0 <= i < |s| => s[i].id)
  }

  function IdSet(s: seq<CartItem>): set<nat>
  {
    set i | 0 <= i < |s| :: s[i].id
  }

  function Elements(ids: seq<nat>): set<nat>
  {
    set id | id in ids
  }

  /** `items.find(item => item.id === id)`. */
  function Find(s: seq<CartItem>, id: nat): (r: Option<CartItem>)
    ensures r.None? <==> !HasId(s, id)
    ensures r.Some? ==> exists k :: 0 <= k < |s| && s[k] == r.value && r.value.id == id &&
                                    forall j :: 0 <= j < k ==> s[j].id != id
  {
    match FindIndex(KeyIs(ItemId, id), s)
    case Some(k) => Some(s[k])
    case None => None
  }

  /** `items.map(item => item.id === id ? { ...item, quantity: q } : item)`. */
  function MapQuantity(s: seq<CartItem>, id: nat, q: int): seq<CartItem>
  {
    seq(|s|, i requires 0 <= i < |s| => if s[i].id == id then s[i].(quantity := q) else s[i])
  }

  /** `items.map(item => item.id === id ? { ...item, note: text } : item)`. */
  function MapNote(s: seq<CartItem>, id: nat, text: string): seq<CartItem>
  {
    seq(|s|, i requires 0 <= i < |s| => if s[i].id == id then s[i].(note := Some(text)) else s[i])
  }

  /** The server's copy after `PUT /cart/{x.id}` with body `x`. */
  function ReplaceById(s: seq<CartItem>, x: CartItem): seq<CartItem>
  {
    ReplaceBy(ItemId, s, x)
  }

  /** `items.filter(item => !ids.has(item.id))`. */
  function RemoveIds(s: seq<CartItem>, ids: set<nat>): seq<CartItem>
  {
    Filter(KeyNotIn(ItemId, ids), s)
  }

  /** `items.filter(item => item.id !== id)`. */
  function RemoveId(s: seq<CartItem>, id: nat): seq<CartItem>
  {
    RemoveIds(s, {id})
  }

  /** The answer to `GET /cart?productId=pid`. */
  function WithProduct(s: seq<CartItem>, pid: nat): seq<CartItem>
  {
    Filter(KeyIs(ItemProduct, pid), s)
  }

  function LineTotal(x: CartItem): real
  {
    x.price * x.quantity as real
  }

  /** `items.reduce((sum, item) => sum + item.price * item.quantity, 0)`:
      a left fold, so the last item is added last. */
  function Subtotal(s: seq<CartItem>): real
  {
    if s == [] then 0.0 else Subtotal(s[..|s| - 1]) + LineTotal(s[|s| - 1])
  }

  /** `subtotal < 1000 ? 50 : 0`. */
  function DeliveryFee(subtotal: real): (fee: real)
    ensures fee == 0.0 <==> subtotal >= FreeDeliveryThreshold
    ensures fee != 0.0 ==> fee == DeliveryCharge
  {
    if subtotal < FreeDeliveryThreshold then DeliveryCharge else 0.0
  }

  function Total(s: seq<CartItem>): real
  {
    Subtotal(s) + DeliveryFee(Subtotal(s))
  }

  /** The "Add $X more to get free delivery" hint: shown only while a fee is
      charged, and the amount it names is then positive and exactly what is
      missing to reach the threshold. */
  function FreeDeliveryHint(subtotal: real): (hint: Option<real>)
    ensures hint.Some? <==> DeliveryFee(subtotal) > 0.0
    ensures hint.Some? ==> hint.value > 0.0 && subtotal + hint.value == FreeDeliveryThreshold
  {
    if DeliveryFee(subtotal) > 0.0 then Some(FreeDeliveryThreshold - subtotal) else None
  }

  /** `item.note || ''`. */
  function NoteText(note: Option<string>): string
  {
    match note
    case Some(t) => t
    case None => ""
  }

  /** The notes map fetchCart builds: `forEach` assigns
      `notes[item.id] = item.note || ''` from the first item to the last. */
  function NotesOf(s: seq<CartItem>): map<nat, string>
  {
    if s == [] then map[]
    else NotesOf(s[..|s| - 1])[s[|s| - 1].id := NoteText(s[|s| - 1].note)]
  }

  /** `notes[id] || ''`. */
  function NoteFor(notes: map<nat, string>, id: nat): string
  {
    if id in notes then notes[id] else ""
  }

  /** Sum of the quantities (what the navigation badge does NOT show). */
  function TotalUnits(s: seq<CartItem>): int
  {
    if s == [] then 0 else TotalUnits(s[..|s| - 1]) + s[|s| - 1].quantity
  }

  predicate AllPositive(s: seq<CartItem>)
  {
    forall i :: 0 <= i < |s| ==> s[i].quantity >= 1
  }

  /** The server's copy and the overall success after `DELETE /cart/{id}` for
      each id in turn; a request fails when it is listed in `failed` or the id
      is no longer stored (json-server answers 404). */
  function DeleteEach(items: seq<CartItem>, ids: seq<nat>, failed: set<nat>): (seq<CartItem>, bool)
  {
    if ids == [] then (items, true)
    else
      var (rest, ok) := DeleteEach(items, ids[..|ids| - 1], failed);
      var id := ids[|ids| - 1];
      if id !in failed && HasId(rest, id) then (RemoveId(rest, id), ok) else (rest, false)
  }

  // ---------------------------------------------------------------------
  // Subtotal

  lemma {:induction false} SubtotalAppend(a: seq<CartItem>, b: seq<CartItem>)
    ensures Subtotal(a + b) == Subtotal(a) + Subtotal(b)
  {
    if b == [] {
      assert a + b == a;
    } else {
      var b' := b[..|b| - 1];
      assert (a + b)[..|a + b| - 1] == a + b';
      SubtotalAppend(a, b');
    }
  }

  /** The sum of the line totals, taken from the front: the reference the
      left fold is checked against. */
  function LineSum(s: seq<CartItem>): real
  {
    if s == [] then 0.0 else LineTotal(s[0]) + LineSum(s[1..])
  }

  /** The reduce adds the same line totals, whatever the direction. */
  lemma {:induction false} SubtotalIsLineSum(s: seq<CartItem>)
    ensures Subtotal(s) == LineSum(s)
  {
    if s != [] {
      SubtotalIsLineSum(s[1..]);
      assert s == [s[0]] + s[1..];
      SubtotalAppend([s[0]], s[1..]);
      assert Subtotal([s[0]]) == LineTotal(s[0]) by {
        assert [s[0]][..0] == [];
      }
    }
  }

  /** No negative price or quantity, no negative subtotal. */
  lemma {:induction false} SubtotalNonNegative(s: seq<CartItem>)
    requires forall i :: 0 <= i < |s| ==> s[i].price >= 0.0 && s[i].quantity >= 0
    ensures Subtotal(s) >= 0.0
  {
    if s != [] {
      var init := s[..|s| - 1];
      assert forall i :: 0 <= i < |init| ==> init[i] == s[i];
      SubtotalNonNegative(init);
      var x := s[|s| - 1];
      assert x.price * x.quantity as real >= 0.0;
    }
  }

  /** The subtotal of a list split around one line. */
  lemma SubtotalSplit(a: seq<CartItem>, y: CartItem, b: seq<CartItem>)
    ensures Subtotal(a + [y] + b) == Subtotal(a) + LineTotal(y) + Subtotal(b)
  {
    calc {
      Subtotal(a + [y] + b);
      { SubtotalAppend(a + [y], b); }
      Subtotal(a + [y]) + Subtotal(b);
      { assert (a + [y])[..|a|] == a; }
      Subtotal(a) + LineTotal(y) + Subtotal(b);
    }
  }

  /** Replacing one line changes the subtotal by the difference of the two
      line totals. */
  lemma SubtotalReplaceAt(s: seq<CartItem>, k: nat, x: CartItem)
    requires k < |s|
    ensures Subtotal(s[..k] + [x] + s[k+1..]) == Subtotal(s) - LineTotal(s[k]) + LineTotal(x)
  {
    var a, b := s[..k], s[k+1..];
    SubtotalSplit(a, x, b);
    SplitAt(s, k);
    SubtotalSplit(a, s[k], b);
  }

  /** The empty cart's snapshot: nothing to pay but the delivery fee. */
  lemma EmptyCartSnapshot()
    ensures Subtotal([]) == 0.0 && DeliveryFee(Subtotal([])) == 50.0 && Total([]) == 50.0
  {
  }

  // ---------------------------------------------------------------------
  // Local updates and the server's copy

  /** With distinct ids, the local quantity update is the server's PUT of
      the found item with the new quantity. */
  lemma QuantityUpdateMatchesPut(s: seq<CartItem>, id: nat, q: int)
    requires DistinctIds(s) && Find(s, id).Some?
    ensures MapQuantity(s, id, q) == ReplaceById(s, Find(s, id).value.(quantity := q))
  {
    var x := Find(s, id).value;
    var k :| 0 <= k < |s| && s[k] == x && x.id == id;
    forall i | 0 <= i < |s| && s[i].id == id
      ensures s[i] == x
    {
    }
  }

  /** With distinct ids, the local note update is the server's PUT of the
      found item with the new note. */
  lemma NoteUpdateMatchesPut(s: seq<CartItem>, id: nat, text: string)
    requires DistinctIds(s) && Find(s, id).Some?
    ensures MapNote(s, id, text) == ReplaceById(s, Find(s, id).value.(note := Some(text)))
  {
    var x := Find(s, id).value;
    var k :| 0 <= k < |s| && s[k] == x && x.id == id;
    forall i | 0 <= i < |s| && s[i].id == id
      ensures s[i] == x
    {
    }
  }

  /** A quantity update changes the subtotal by exactly the change of that
      one line's total (LineTotalDelta: the changed units times its price). */
  lemma QuantityUpdateSubtotal(s: seq<CartItem>, id: nat, q: int)
    requires DistinctIds(s) && Find(s, id).Some?
    ensures var x := Find(s, id).value;
      Subtotal(MapQuantity(s, id, q)) == Subtotal(s) - LineTotal(x) + LineTotal(x.(quantity := q))
  {
    var k := QuantityUpdateAt(s, id, q);
    SubtotalSplit(s[..k], s[k], s[k+1..]);
    SubtotalSplit(s[..k], s[k].(quantity := q), s[k+1..]);
  }

  /** The position of the found line, and the quantity update as a splice
      there. */
  lemma QuantityUpdateAt(s: seq<CartItem>, id: nat, q: int) returns (k: nat)
    requires DistinctIds(s) && Find(s, id).Some?
    ensures k < |s| && s[k] == Find(s, id).value
    ensures MapQuantity(s, id, q) == s[..k] + [s[k].(quantity := q)] + s[k+1..]
    ensures Subtotal(s) == Subtotal(s[..k] + [s[k]] + s[k+1..])
  {
    var x := Find(s, id).value;
    k :| 0 <= k < |s| && s[k] == x && x.id == id;
    QuantityUpdateMatchesPut(s, id, q);
    ReplaceAt(ItemId, s, k, x.(quantity := q));
    SplitAt(s, k);
  }

  /** Setting a line's quantity to q changes its total by the changed units
      times its price. */
  lemma LineTotalDelta(x: CartItem, q: int)
    ensures LineTotal(x.(quantity := q)) == LineTotal(x) + (q - x.quantity) as real * x.price
  {
    var a := q as real;
    var b := x.quantity as real;
    assert (q - x.quantity) as real == a - b;
    assert x.price * a == x.price * b + (a - b) * x.price;
  }

  /** Removing a line takes exactly its line total off the subtotal. */
  lemma RemoveSubtotal(s: seq<CartItem>, id: nat)
    requires DistinctIds(s) && Find(s, id).Some?
    ensures var x := Find(s, id).value;
      Subtotal(RemoveId(s, id)) == Subtotal(s) - LineTotal(x)
  {
    var x := Find(s, id).value;
    var k :| 0 <= k < |s| && s[k] == x && x.id == id;
    RemoveKeyAt(ItemId, s, k);
    assert RemoveId(s, id) == s[..k] + s[k+1..];
    SubtotalAppend(s[..k], s[k+1..]);
    SplitAt(s, k);
    SubtotalSplit(s[..k], x, s[k+1..]);
  }

  /** Quantity updates that pass the `< 1` guard keep every quantity positive. */
  lemma QuantityUpdateKeepsPositive(s: seq<CartItem>, id: nat, q: int)
    requires AllPositive(s) && q >= 1
    ensures AllPositive(MapQuantity(s, id, q))
  {
  }

  // ---------------------------------------------------------------------
  // Notes

  /** Appending a line adds its id to the id set. */
  lemma IdSetSnoc(s: seq<CartItem>)
    requires |s| > 0
    ensures IdSet(s) == IdSet(s[..|s| - 1]) + {s[|s| - 1].id}
  {
    var p := s[..|s| - 1];
    forall id | id in IdSet(s) ensures id in IdSet(p) + {s[|s| - 1].id} {
      var i :| 0 <= i < |s| && s[i].id == id;
      if i < |p| { assert p[i] == s[i]; }
    }
    forall id | id in IdSet(p) ensures id in IdSet(s) {
      var i :| 0 <= i < |p| && p[i].id == id;
      assert s[i] == p[i];
    }
  }

  /** fetchCart's notes map holds, for every loaded item, that item's note
      or the empty string, and nothing else. */
  lemma {:induction false} NotesOfSpec(s: seq<CartItem>)
    requires DistinctIds(s)
    ensures NotesOf(s).Keys == IdSet(s)
    ensures forall i :: 0 <= i < |s| ==> NotesOf(s)[s[i].id] == NoteText(s[i].note)
  {
    if s != [] {
      var p, x := s[..|s| - 1], s[|s| - 1];
      DistinctByInit(ItemId, s);
      NotesOfSpec(p);
      KeyOnlyAt(ItemId, s, |s| - 1);
      IdSetSnoc(s);
      forall i | 0 <= i < |s| ensures NotesOf(s)[s[i].id] == NoteText(s[i].note)
      {
        if i < |p| {
          assert p[i] == s[i] && p[i] in p;
        }
      }
    }
  }

  // ---------------------------------------------------------------------
  // Emptying the cart

  /** Whatever the outcomes, the server keeps exactly the items whose id was
      not deleted successfully: the ids requested minus the failed ones. */
  lemma {:induction false} DeleteEachRemaining(items: seq<CartItem>, ids: seq<nat>, failed: set<nat>)
    ensures DeleteEach(items, ids, failed).0 == RemoveIds(items, Elements(ids) - failed)
  {
    var all := Elements(ids) - failed;
    if ids == [] {
      FilterAll(KeyNotIn(ItemId, all), items);
    } else {
      var init, id := ids[..|ids| - 1], ids[|ids| - 1];
      var before := Elements(init) - failed;
      DeleteEachRemaining(items, init, failed);
      var rest := DeleteEach(items, init, failed).0;
      assert ids == init + [id];
      if id !in failed {
        assert all == before + {id};
        RemoveKeysStep(ItemId, before, id, items);
        if !HasId(rest, id) {
          forall y | y in rest ensures KeyNotIn(ItemId, {id})(y)
          {
            var j :| 0 <= j < |rest| && rest[j] == y;
          }
          FilterAll(KeyNotIn(ItemId, {id}), rest);
        }
      } else {
        assert all == before;
      }
    }
  }

  /** The overall outcome is success exactly when no listed id failed, given
      that every id is stored once and requested once. */
  lemma {:induction false} DeleteEachOutcome(items: seq<CartItem>, ids: seq<nat>, failed: set<nat>)
    requires NoDups(ids) && forall i :: 0 <= i < |ids| ==> HasId(items, ids[i])
    ensures DeleteEach(items, ids, failed).1 <==> forall i :: 0 <= i < |ids| ==> ids[i] !in failed
  {
    if ids != [] {
      var init, id := ids[..|ids| - 1], ids[|ids| - 1];
      NoDupsInit(ids);
      assert forall i :: 0 <= i < |init| ==> init[i] == ids[i];
      DeleteEachOutcome(items, init, failed);
      DeleteEachRemaining(items, init, failed);
      HasKeyAfterFilter(ItemId, Elements(init) - failed, items, id);
    }
  }

  /** Deleting every item of a cart with distinct ids succeeds exactly when
      no request failed; the server then holds nothing, and otherwise it
      holds exactly the items whose deletion failed. */
  lemma DeleteAllOutcome(items: seq<CartItem>, failed: set<nat>)
    requires DistinctIds(items)
    ensures var (rest, ok) := DeleteEach(items, Ids(items), failed);
      && (ok <==> forall i :: 0 <= i < |items| ==> items[i].id !in failed)
      && rest == RemoveIds(items, IdSet(items) - failed)
      && (ok ==> rest == [])
  {
    var ids := Ids(items);
    assert NoDups(ids) by {
      forall i, j | 0 <= i < j < |ids| ensures ids[i] != ids[j] {
        assert ItemId(items[i]) != ItemId(items[j]);
      }
    }
    forall i | 0 <= i < |ids| ensures HasId(items, ids[i]) {
      assert ItemId(items[i]) == ids[i];
    }
    DeleteEachOutcome(items, ids, failed);
    DeleteEachRemaining(items, ids, failed);
    assert Elements(ids) == IdSet(items) by {
      forall id | id in ids ensures id in IdSet(items) {
        var i :| 0 <= i < |ids| && ids[i] == id;
      }
      forall id | id in IdSet(items) ensures id in ids {
        var i :| 0 <= i < |items| && items[i].id == id;
        assert ids[i] == id;
      }
    }
    var rest := DeleteEach(items, ids, failed).0;
    var ok := DeleteEach(items, ids, failed).1;
    assert rest == RemoveIds(items, IdSet(items) - failed);
    if ok {
      var f := KeyNotIn(ItemId, IdSet(items) - failed);
      forall x | x in items ensures !f(x) {
        var i :| 0 <= i < |items| && items[i] == x;
        assert x.id in IdSet(items);
      }
      FilterNone(f, items);
    }
  }

  /** If some deletions succeed and others fail, emptyCart leaves the local
      list as it was while the server has lost items: the two disagree. */
  lemma PartialEmptyDesyncs(items: seq<CartItem>, failed: set<nat>, i: nat)
    requires DistinctIds(items) && i < |items| && items[i].id !in failed
    ensures DeleteEach(items, Ids(items), failed).0 != items
  {
    DeleteAllOutcome(items, failed);
    var rest := DeleteEach(items, Ids(items), failed).0;
    assert items[i].id in IdSet(items) - failed;
    assert items[i] !in rest;
  }
}
