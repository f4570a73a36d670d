/** The catalog's filter bar (app/components/SearchSortBar.tsx and its .jsx
    twin, which holds the same logic): the category, search and sort values
    the catalog page keeps, as the bar's handlers change them, and the
    labels of the category selector. */
module FilterBar {
  import opened Seqs
  import opened Shop
  import opened Text
  import opened HomePage

  /** The values the sort selector offers, in display order. */
  const SortOptions: seq<string> := [NoSorting, PriceAsc, PriceDesc]

  const AllCategoriesLabel: string := "All Categories"

  /** An entry of a `<select>`: the value it sets and the text it shows. */
  datatype SelectOption = SelectOption(value: string, caption: string)

  /** A category's label: its first character upper-cased, the rest as
      typed; the empty category stays empty. */
  function CategoryLabel(category: string): (shown: string)
    ensures |shown| == |category|
    ensures category != [] ==> shown[0] == UpperChar(category[0]) && shown[1..] == category[1..]
    ensures Lower(shown) == Lower(category)
  {
    CapitalizeSameLower(category);
    Capitalize(category)
  }

  /** The category selector: "All Categories" with the empty value first,
      then one entry per category whose value is the raw category and whose
      label is the capitalized one. */
  function CategoryOptions(categories: seq<string>): (r: seq<SelectOption>)
    ensures |r| == |categories| + 1
    ensures r[0] == SelectOption("", AllCategoriesLabel)
    ensures forall i :: 0 <= i < |categories| ==>
              r[i + 1].value == categories[i] && r[i + 1].caption == CategoryLabel(categories[i])
  {
    [SelectOption("", AllCategoriesLabel)] +
    seq(|categories|, i requires 0 <= i < |categories| => SelectOption(categories[i], CategoryLabel(categories[i])))
  }

  /** Distinct categories give distinct option values, so each entry
      selects its own category. */
  lemma CategoryOptionValuesDistinct(categories: seq<string>)
    requires NoDups(categories) && "" !in categories
    ensures NoDups(seq(|categories| + 1, i requires 0 <= i <= |categories| => CategoryOptions(categories)[i].value))
  {
    var r := CategoryOptions(categories);
    var vs := seq(|categories| + 1, i requires 0 <= i <= |categories| => r[i].value);
    forall i, j | 0 <= i < j < |vs| ensures vs[i] != vs[j]
    {
      assert vs[j] == categories[j - 1];
      if i == 0 {
        assert categories[j - 1] in categories;
      } else {
        assert vs[i] == categories[i - 1];
      }
    }
  }

  /** The three catalog filters the bar edits. */
  class Filters {
    var categoryFilter: string
    var searchTerm: string
    var sortOption: string

    /** The sort value is one the selector offers. */
    predicate Valid()
      reads this
    {
      sortOption in SortOptions
    }

    constructor ()
      ensures categoryFilter == "" && searchTerm == "" && sortOption == NoSorting
      ensures Valid()
    {
      categoryFilter := "";
      searchTerm := "";
      sortOption := NoSorting;
    }

    /** handleCategoryChange: the new category, with search and sort reset
        whatever they were ("All Categories", the empty value, included). */
    method HandleCategoryChange(category: string)
      modifies this
      ensures categoryFilter == category && searchTerm == "" && sortOption == NoSorting
      ensures Valid()
    {
      categoryFilter := category;
      searchTerm := "";
      sortOption := NoSorting;
    }

    /** Typing in the search box changes only the search term. */
    method SetSearchTerm(term: string)
      modifies this
      ensures searchTerm == term
      ensures categoryFilter == old(categoryFilter) && sortOption == old(sortOption)
      ensures old(Valid()) ==> Valid()
    {
      searchTerm := term;
    }

    /** Choosing a sort changes only the sort; the selector offers only the
        values of `SortOptions`. */
    method SetSortOption(option: string)
      requires option in SortOptions
      modifies this
      ensures sortOption == option && Valid()
      ensures categoryFilter == old(categoryFilter) && searchTerm == old(searchTerm)
    {
      sortOption := option;
    }

    /** The "List" button's handler does nothing: it may change no field. */
    method HandleListClick()
      ensures categoryFilter == old(categoryFilter) && searchTerm == old(searchTerm) &&
              sortOption == old(sortOption)
    {
    }
  }

  /** Right after a category change the grid shows exactly that category's
      products in catalog order, since search and sort were reset. */
  lemma CategoryChangeShowsCategory(products: seq<Product>, category: string)
    ensures Visible(products, category, "", NoSorting) == CategoryStage(products, category)
  {
  }
}
