/** The add-campaign page (app/add-campaign/page.tsx): the product
    selection, the form fields, and the submit handler that posts a campaign
    and resets the form. */
module CampaignForm {
  import opened Options
  import opened Seqs
  import opened Shop
  import opened Remote
  import opened HomePage

  /** The default (and reset) discount of the form. */
  const DefaultDiscount: int := 10

  // ---------------------------------------------------------------------
  // handleProductToggle

  /** The filter callback `id => id !== productId`. */
  function Other(pid: nat): nat -> bool
  {
    (id: nat) => id != pid
  }

  /** A selected id is dropped (every copy of it, the others keeping their
      order); an unselected one is appended at the end. */
  function Toggle(selected: seq<nat>, pid: nat): (r: seq<nat>)
    ensures forall x :: x in r <==> (x in selected) != (x == pid)
    ensures pid in selected ==> SubseqOf(r, selected)
    ensures pid !in selected ==> |r| == |selected| + 1 && r[..|selected|] == selected && r[|selected|] == pid
  {
    if pid in selected then
      FilterIsSubseq(Other(pid), selected);
      Filter(Other(pid), selected)
    else
      selected + [pid]
  }

  /** The selection never holds an id twice. */
  lemma ToggleKeepsNoDups(selected: seq<nat>, pid: nat)
    requires NoDups(selected)
    ensures NoDups(Toggle(selected, pid))
  {
    if pid in selected {
      FilterNoDups(Other(pid), selected);
    }
  }

  /** Toggling an unselected id twice gives back the selection. */
  lemma ToggleTwiceUnselected(selected: seq<nat>, pid: nat)
    requires pid !in selected
    ensures Toggle(Toggle(selected, pid), pid) == selected
  {
    var once := selected + [pid];
    assert pid in once;
    FilterConcat(Other(pid), selected, [pid]);
    FilterAll(Other(pid), selected);
    FilterNone(Other(pid), [pid]);
  }

  /** Dropping the last element, when it occurs nowhere else, leaves the
      rest. */
  lemma DropLast(selected: seq<nat>, pid: nat)
    requires NoDups(selected) && |selected| > 0 && selected[|selected| - 1] == pid
    ensures Filter(Other(pid), selected) + [pid] == selected
  {
    var init := selected[..|selected| - 1];
    NoDupsInit(selected);
    InitLast(selected);
    OthersKept(init, pid);
  }

  /** Filtering `init + [pid]` by `Other(pid)` gives `init` back when `pid`
      does not occur in `init`. */
  lemma OthersKept(init: seq<nat>, pid: nat)
    requires pid !in init
    ensures Filter(Other(pid), init + [pid]) == init
  {
    FilterConcat(Other(pid), init, [pid]);
    FilterAll(Other(pid), init);
    FilterNone(Other(pid), [pid]);
  }

  /** Toggling a selected id twice moves it to the end, so the selection comes
      back unchanged exactly when that id was the last one chosen. */
  lemma ToggleTwiceSelected(selected: seq<nat>, pid: nat)
    requires NoDups(selected) && pid in selected
    ensures Toggle(Toggle(selected, pid), pid) == Filter(Other(pid), selected) + [pid]
    ensures Toggle(Toggle(selected, pid), pid) == selected <==> selected[|selected| - 1] == pid
  {
    var once := Filter(Other(pid), selected);
    assert Toggle(selected, pid) == once;
    assert pid !in once;
    var twice := once + [pid];
    assert Toggle(once, pid) == twice;
    if selected[|selected| - 1] == pid {
      DropLast(selected, pid);
    } else {
      assert twice[|twice| - 1] == pid;
    }
  }

  /** A newly added campaign gives its discount to each product it lists
      that no earlier campaign lists. */
  lemma NewCampaignDiscount(campaigns: seq<Campaign>, c: Campaign, pid: nat)
    requires pid in c.productIds
    requires forall i :: 0 <= i < |campaigns| ==> pid !in campaigns[i].productIds
    ensures ProductDiscount(campaigns + [c], pid) == c.discountPercentage
  {
    DiscountAppend(campaigns, [c], pid);
  }

  // ---------------------------------------------------------------------
  // The form

  /** What the shopper is told after submitting: the missing-fields alert,
      the error alert, or the success alert (followed by the error alert
      when the refresh of the campaign list fails). */
  datatype SubmitOutcome = Incomplete | PostFailed | Added(refreshed: bool)

  class CampaignFormState {
    var title: string
    var description: string
    var image: string
    var discountPercentage: int
    var selectedProducts: seq<nat>
    var submitting: bool
    var campaigns: seq<Campaign>

    constructor ()
      ensures title == "" && description == "" && image == ""
      ensures discountPercentage == DefaultDiscount && selectedProducts == []
      ensures !submitting && campaigns == []
    {
      title := "";
      description := "";
      image := "";
      discountPercentage := DefaultDiscount;
      selectedProducts := [];
      submitting := false;
      campaigns := [];
    }

    /** Every text field is filled in and at least one product is selected. */
    predicate Complete()
      reads this
    {
      title != "" && description != "" && image != "" && |selectedProducts| > 0
    }

    /** Ticking or unticking a product's checkbox. */
    method ToggleProduct(pid: nat)
      modifies this
      ensures selectedProducts == Toggle(old(selectedProducts), pid)
      ensures title == old(title) && description == old(description) && image == old(image)
      ensures discountPercentage == old(discountPercentage)
      ensures submitting == old(submitting) && campaigns == old(campaigns)
    {
      selectedProducts := Toggle(selectedProducts, pid);
    }

    /** The discount field: `parseInt(value) || 10`, the parsed value given
        (None for NaN). */
    method SetDiscount(parsed: Option<int>)
      modifies this
      ensures discountPercentage == ParsedOr(parsed, DefaultDiscount)
      ensures discountPercentage != 0
      ensures title == old(title) && description == old(description) && image == old(image)
      ensures selectedProducts == old(selectedProducts)
      ensures submitting == old(submitting) && campaigns == old(campaigns)
    {
      discountPercentage := ParsedOr(parsed, DefaultDiscount);
    }

    /** handleSubmit: an incomplete form makes no request and changes
        nothing; otherwise the campaign is posted with exactly the form's
        values, a successful post resets the form and then reloads the
        campaign list, and a failed post leaves the form as it was. */
    method HandleSubmit(store: CampaignStore, postOk: bool, refreshOk: bool) returns (outcome: SubmitOutcome)
      requires store.Valid()
      modifies this, store
      ensures outcome == Incomplete <==> !old(Complete())
      ensures outcome == Incomplete ==>
                store.campaigns == old(store.campaigns) && store.nextId == old(store.nextId) &&
                title == old(title) && description == old(description) && image == old(image) &&
                discountPercentage == old(discountPercentage) && selectedProducts == old(selectedProducts) &&
                submitting == old(submitting) && campaigns == old(campaigns)
      ensures old(Complete()) && postOk ==>
                var d := CampaignDraft(old(title), old(description), old(image), old(selectedProducts), old(discountPercentage));
                store.campaigns == old(store.campaigns) + [CreatedCampaign(old(store.nextId), d)] &&
                store.nextId == old(store.nextId) + 1 &&
                outcome == Added(refreshOk) &&
                title == "" && description == "" && image == "" &&
                discountPercentage == DefaultDiscount && selectedProducts == [] &&
                campaigns == (if refreshOk then store.campaigns else old(campaigns))
      ensures old(Complete()) && !postOk ==>
                store.campaigns == old(store.campaigns) && store.nextId == old(store.nextId) &&
                outcome == PostFailed &&
                title == old(title) && description == old(description) && image == old(image) &&
                discountPercentage == old(discountPercentage) && selectedProducts == old(selectedProducts) &&
                campaigns == old(campaigns)
      ensures old(Complete()) ==> !submitting
      ensures store.Valid()
    {
      if !Complete() {
        return Incomplete;
      }
      submitting := true;
      var d := CampaignDraft(title, description, image, selectedProducts, discountPercentage);
      var posted := store.Post(d, postOk);
      if posted.None? {
        outcome := PostFailed;
      } else {
        title := "";
        description := "";
        image := "";
        discountPercentage := DefaultDiscount;
        selectedProducts := [];
        var response := store.GetAll(refreshOk);
        if response.Some? {
          campaigns := response.value;
        }
        outcome := Added(response.Some?);
      }
      submitting := false;
    }
  }
}
