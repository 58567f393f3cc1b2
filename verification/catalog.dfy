/** The public catalog page (src/pages/Catalog.tsx): the product filter
    (search term and selected category), the per-category product counts,
    the name shown for the selection, and the page state with its
    first-category auto-selection. */
module Catalog {
  import opened Types
  import opened JsString
  import opened Lists

  /** The name of the computed pseudo-category listing the bestsellers. */
  const BestsellerCategory: string := "M\U{C1}S VENDIDO"

  // ---------------------------------------------------------------------
  // The filter predicate
  // ---------------------------------------------------------------------

  /** The search part: an empty term matches; otherwise the lower-cased term
      must be included in the lower-cased code or the lower-cased name. */
  predicate MatchesSearch(p: Product, term: string) {
    term == "" || Includes(Lower(p.code), Lower(term)) || Includes(Lower(p.name), Lower(term))
  }

  /** An empty term matches every product; a non-empty term matches exactly
      when, ignoring case, it occurs in the code or in the name. */
  lemma MatchesSearchIff(p: Product, term: string)
    ensures term == "" ==> MatchesSearch(p, term)
    ensures term != "" ==>
      (MatchesSearch(p, term) <==> Occurs(Lower(p.code), Lower(term)) || Occurs(Lower(p.name), Lower(term)))
  {
    IncludesIff(Lower(p.code), Lower(term));
    IncludesIff(Lower(p.name), Lower(term));
  }

  /** `categories.find(c => c.id === id)`. */
  function FindCategory(categories: seq<Category>, id: string): (r: Option<Category>)
    ensures r.None? <==> forall c | c in categories :: c.id != id
    ensures r.Some? ==>
      exists i :: 0 <= i < |categories| && categories[i] == r.value &&
        r.value.id == id && forall j | 0 <= j < i :: categories[j].id != id
  {
    if categories == [] then None
    else if categories[0].id == id then Some(categories[0])
    else
      var r := FindCategory(categories[1..], id);
      assert forall c | c in categories[1..] :: c in categories;
      if r.Some? then
        var i :| 0 <= i < |categories[1..]| && categories[1..][i] == r.value
          && r.value.id == id && forall j | 0 <= j < i :: categories[1..][j].id != id;
        assert categories[i + 1] == r.value;
        r
      else r
  }

  /** The category part: no selection keeps everything; a selected id naming
      the bestseller pseudo-category keeps the bestsellers; any other id,
      found or not, keeps the products filed under it. */
  predicate InCategory(p: Product, categories: seq<Category>, selected: Option<string>) {
    match selected
    case None => true
    case Some(id) =>
      var c := FindCategory(categories, id);
      if c.Some? && c.value.name == BestsellerCategory then p.isBestseller
      else p.categoryId == id
  }

  /** The product list the grid receives. */
  function FilterProducts(products: seq<Product>, categories: seq<Category>,
                          selected: Option<string>, term: string): (r: seq<Product>)
    ensures IsSubsequence(r, products)
    ensures forall p | p in products ::
      p in r <==> MatchesSearch(p, term) && InCategory(p, categories, selected)
  {
    FilterBySubsequence(products, p => MatchesSearch(p, term) && InCategory(p, categories, selected));
    FilterBy(products, p => MatchesSearch(p, term) && InCategory(p, categories, selected))
  }

  /** With nothing selected, the result is exactly the search matches. */
  lemma FilterWithoutSelection(products: seq<Product>, categories: seq<Category>, term: string)
    ensures FilterProducts(products, categories, None, term)
         == FilterBy(products, p => MatchesSearch(p, term))
  {
    FilterByAgree(products, p => MatchesSearch(p, term) && InCategory(p, categories, None),
                  p => MatchesSearch(p, term));
  }

  /** A selected bestseller pseudo-category keeps the bestseller search
      matches, whatever category they are filed under. */
  lemma FilterBestsellerSelection(products: seq<Product>, categories: seq<Category>, id: string, term: string)
    requires FindCategory(categories, id).Some?
    requires FindCategory(categories, id).value.name == BestsellerCategory
    ensures FilterProducts(products, categories, Some(id), term)
         == FilterBy(products, p => MatchesSearch(p, term) && p.isBestseller)
  {
    FilterByAgree(products, p => MatchesSearch(p, term) && InCategory(p, categories, Some(id)),
                  p => MatchesSearch(p, term) && p.isBestseller);
  }

  /** Any other selected id, including one no category has, keeps the search
      matches filed under that id. */
  lemma FilterOrdinarySelection(products: seq<Product>, categories: seq<Category>, id: string, term: string)
    requires FindCategory(categories, id).None? || FindCategory(categories, id).value.name != BestsellerCategory
    ensures FilterProducts(products, categories, Some(id), term)
         == FilterBy(products, p => MatchesSearch(p, term) && p.categoryId == id)
  {
    FilterByAgree(products, p => MatchesSearch(p, term) && InCategory(p, categories, Some(id)),
                  p => MatchesSearch(p, term) && p.categoryId == id);
  }

  // ---------------------------------------------------------------------
  // Counts per category
  // ---------------------------------------------------------------------

  /** The count shown next to one category. */
  function CategoryCount(products: seq<Product>, c: Category): nat {
    if c.name == BestsellerCategory then |FilterBy(products, (p: Product) => p.isBestseller)|
    else |FilterBy(products, (p: Product) => p.categoryId == c.id)|
  }

  function Ids(categories: seq<Category>): set<string> {
    set c | c in categories :: c.id
  }

  /** The counts object built by the reduce over the categories: one entry
      per category id, a later category overwriting an earlier one with the
      same id. */
  function ProductCounts(products: seq<Product>, categories: seq<Category>): (counts: map<string, nat>)
    ensures counts.Keys == Ids(categories)
    ensures categories != [] ==>
      counts[categories[|categories| - 1].id] == CategoryCount(products, categories[|categories| - 1])
  {
    if categories == [] then map[]
    else
      var pre := categories[..|categories| - 1];
      var last := categories[|categories| - 1];
      assert categories == pre + [last];
      assert Ids(categories) == Ids(pre) + {last.id};
      ProductCounts(products, pre)[last.id := CategoryCount(products, last)]
  }

  /** The entry for an id is the count of the last category carrying it. */
  lemma {:induction false} ProductCountsLastWins(products: seq<Product>, categories: seq<Category>, i: nat)
    requires i < |categories|
    requires forall j | i < j < |categories| :: categories[j].id != categories[i].id
    ensures categories[i].id in ProductCounts(products, categories)
    ensures ProductCounts(products, categories)[categories[i].id] == CategoryCount(products, categories[i])
  {
    if i < |categories| - 1 {
      var pre := categories[..|categories| - 1];
      ProductCountsLastWins(products, pre, i);
    }
  }

  /** With distinct ids, the count next to a category is the length of the
      list the page shows when that category is selected and the search box
      is empty. */
  lemma ProductCountsMatchFilter(products: seq<Product>, categories: seq<Category>, i: nat)
    requires i < |categories|
    requires forall j, k | 0 <= j < k < |categories| :: categories[j].id != categories[k].id
    ensures ProductCounts(products, categories)[categories[i].id]
         == |FilterProducts(products, categories, Some(categories[i].id), "")|
  {
    var c := categories[i];
    ProductCountsLastWins(products, categories, i);
    assert FindCategory(categories, c.id) == Some(c);
    if c.name == BestsellerCategory {
      FilterByAgree(products, p => MatchesSearch(p, "") && InCategory(p, categories, Some(c.id)),
                    (p: Product) => p.isBestseller);
    } else {
      FilterByAgree(products, p => MatchesSearch(p, "") && InCategory(p, categories, Some(c.id)),
                    (p: Product) => p.categoryId == c.id);
    }
  }

  /** The heading name of the selection: absent for no selection or an empty
      id, for an id no category has, and for a category with an empty name. */
  function SelectedCategoryName(selected: Option<string>, categories: seq<Category>): (r: Option<string>)
    ensures r.Some? ==>
      selected.Some? && selected.value != "" && r.value != "" &&
      exists c | c in categories :: c.id == selected.value && c.name == r.value
    ensures (Truthy(selected) && FindCategory(categories, selected.value).Some? &&
             FindCategory(categories, selected.value).value.name != "") ==> r.Some?
    ensures r.Some? ==> FindCategory(categories, selected.value).Some? &&
                        r.value == FindCategory(categories, selected.value).value.name
  {
    if !Truthy(selected) then None
    else
      match FindCategory(categories, selected.value)
      case None => None
      case Some(c) => if c.name != "" then Some(c.name) else None
  }

  // ---------------------------------------------------------------------
  // The page state
  // ---------------------------------------------------------------------

  class CatalogPage {
    var products: seq<Product>
    var categories: seq<Category>
    var selected: Option<string>
    var searchTerm: string
    var loading: bool

    constructor ()
      ensures products == [] && categories == [] && selected == None
      ensures searchTerm == "" && loading
    {
      products := [];
      categories := [];
      selected := None;
      searchTerm := "";
      loading := true;
    }

    /** The products handed to the grid. */
    function Filtered(): (r: seq<Product>)
      reads this
      ensures IsSubsequence(r, products)
    {
      FilterProducts(products, categories, selected, searchTerm)
    }

    /** The counts handed to the category filter; they read neither the
        search term nor the selection. */
    function Counts(): (r: map<string, nat>)
      reads this
      ensures r.Keys == Ids(categories)
    {
      ProductCounts(products, categories)
    }

    /** The effect run when the category list changes: select the first
        category when there is one and nothing is selected yet. */
    method AutoSelectFirst()
      modifies this`selected
      ensures selected == if old(selected).None? && categories != [] then Some(categories[0].id) else old(selected)
    {
      if |categories| > 0 && selected == None {
        selected := Some(categories[0].id);
      }
    }

    /** The initial load, given what the two queries returned: an error in
        either leaves the lists as they were; otherwise each list is the
        returned rows, an absent result counting as empty, and the category
        effect runs. Loading ends either way. */
    method LoadData(productsResult: Fetch<Product>, categoriesResult: Fetch<Category>)
      modifies this`products, this`categories, this`selected, this`loading
      ensures !loading
      ensures productsResult.Failed? || categoriesResult.Failed? ==>
        products == old(products) && categories == old(categories) && selected == old(selected)
      ensures productsResult.Rows? && categoriesResult.Rows? ==>
        products == productsResult.data.GetOr([]) && categories == categoriesResult.data.GetOr([])
        && selected == if old(selected).None? && categories != [] then Some(categories[0].id) else old(selected)
    {
      if productsResult.Failed? || categoriesResult.Failed? {
        loading := false;
        return;
      }
      products := productsResult.data.GetOr([]);
      categories := categoriesResult.data.GetOr([]);
      AutoSelectFirst();
      loading := false;
    }

    /** The category filter's callback; `None` is "all categories". */
    method SelectCategory(id: Option<string>)
      modifies this`selected
      ensures selected == id
      ensures Counts() == old(Counts())
    {
      selected := id;
    }

    /** The search box's callback. */
    method SetSearchTerm(value: string)
      modifies this`searchTerm
      ensures searchTerm == value
      ensures Counts() == old(Counts())
    {
      searchTerm := value;
    }
  }
}
