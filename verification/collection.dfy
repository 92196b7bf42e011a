/**
 * The collection page: a case-insensitive name search, then a category
 * filter, then an optional stable sort by list price; and the category
 * checkbox toggle.
 */
module Collection {
  import opened Seqs
  import opened Text
  import opened Catalog

  const LowToHigh: string := "low-high"
  const HighToLow: string := "high-low"

  /** `item.name.toLowerCase().includes(search.toLowerCase())`. */
  predicate MatchesSearch(product: Product, search: string) {
    Includes(ToLower(product.name), ToLower(search))
  }

  function SearchTest(search: string): Product -> bool {
    (product: Product) => MatchesSearch(product, search)
  }

  function CategoryTest(categories: seq<string>): Product -> bool {
    (product: Product) => product.category in categories
  }

  /** Both filters at once; an empty search or an empty selection lets everything through. */
  predicate PassesFilters(product: Product, search: string, categories: seq<string>) {
    (search == "" || MatchesSearch(product, search)) && (|categories| == 0 || product.category in categories)
  }

  function Passes(search: string, categories: seq<string>): Product -> bool {
    (product: Product) => PassesFilters(product, search, categories)
  }

  function Price(product: Product): int {
    product.price
  }

  /** The key of the descending sort: the comparator `b.price - a.price` orders by `-price`. */
  function NegatedPrice(product: Product): int {
    -product.price
  }

  /** The search step: applied only when the search text is non-empty. */
  function SearchStep(products: seq<Product>, search: string): seq<Product> {
    if search != "" then Filter(products, SearchTest(search)) else products
  }

  /** The category step: applied only when some category is selected. */
  function CategoryStep(products: seq<Product>, categories: seq<string>): seq<Product> {
    if |categories| > 0 then Filter(products, CategoryTest(categories)) else products
  }

  /** The sort step; any sort type other than the two price orders leaves the order as it is. */
  function SortStep(products: seq<Product>, sortType: string): seq<Product> {
    if sortType == LowToHigh then SortBy(products, Price)
    else if sortType == HighToLow then SortBy(products, NegatedPrice)
    else products
  }

  /** The two filter steps in sequence keep exactly the products that pass both tests, in their order. */
  lemma FilterStepsArePasses(products: seq<Product>, search: string, categories: seq<string>)
    ensures CategoryStep(SearchStep(products, search), categories) == Filter(products, Passes(search, categories))
  {
    var passes := Passes(search, categories);
    var always: Product -> bool := _ => true;
    var searchTest := if search != "" then SearchTest(search) else always;
    var categoryTest := if |categories| > 0 then CategoryTest(categories) else always;
    FilterKeepsAll(products, always);
    FilterKeepsAll(SearchStep(products, search), always);
    assert SearchStep(products, search) == Filter(products, searchTest);
    assert CategoryStep(SearchStep(products, search), categories) == Filter(Filter(products, searchTest), categoryTest);
    FilterFilter(products, searchTest, categoryTest, passes);
  }

  /** What the sort step promises: the same products, ordered by price when a price order is chosen. */
  lemma SortStepFacts(products: seq<Product>, sortType: string)
    ensures multiset(SortStep(products, sortType)) == multiset(products)
    ensures sortType != LowToHigh && sortType != HighToLow ==> SortStep(products, sortType) == products
    ensures sortType == LowToHigh ==> SortedBy(SortStep(products, sortType), Price)
    ensures sortType == HighToLow ==> SortedBy(SortStep(products, sortType), NegatedPrice)
  {
    if sortType == LowToHigh {
      SortBySorted(products, Price);
    } else if sortType == HighToLow {
      SortBySorted(products, NegatedPrice);
    }
  }

  /**
   * `applyFilterAndSort`, returning the new filtered list. With no products
   * it does nothing, so the previously filtered list stays.
   */
  function ApplyFilterAndSort(products: seq<Product>, search: string, categories: seq<string>, sortType: string, previous: seq<Product>): (r: seq<Product>)
    ensures products == [] ==> r == previous
    ensures products != [] ==> multiset(r) == multiset(Filter(products, Passes(search, categories)))
    ensures products != [] ==> forall i :: 0 <= i < |r| ==> r[i] in products && PassesFilters(r[i], search, categories)
    ensures products != [] ==> forall i :: 0 <= i < |products| && PassesFilters(products[i], search, categories) ==> products[i] in r
    ensures products != [] && sortType != LowToHigh && sortType != HighToLow ==> r == Filter(products, Passes(search, categories))
    ensures products != [] && sortType == LowToHigh ==> forall i, j :: 0 <= i < j < |r| ==> r[i].price <= r[j].price
    ensures products != [] && sortType == HighToLow ==> forall i, j :: 0 <= i < j < |r| ==> r[i].price >= r[j].price
  {
    if products == [] then previous
    else
      var filtered := CategoryStep(SearchStep(products, search), categories);
      FilterStepsArePasses(products, search, categories);
      SortStepFacts(filtered, sortType);
      var r := SortStep(filtered, sortType);
      MembersOfPermutation(r, filtered);
      r
  }

  /** With no search text, no ticked category and the default order, the page shows the catalogue as fetched. */
  lemma NoFiltersShowAll(products: seq<Product>, sortType: string, previous: seq<Product>)
    requires products != []
    requires sortType != LowToHigh && sortType != HighToLow
    ensures ApplyFilterAndSort(products, "", [], sortType, previous) == products
  {
    FilterKeepsAll(products, Passes("", []));
  }

  /** Two sequences with the same multiset have the same members. */
  lemma MembersOfPermutation(a: seq<Product>, b: seq<Product>)
    requires multiset(a) == multiset(b)
    ensures forall i :: 0 <= i < |a| ==> a[i] in b
    ensures forall i :: 0 <= i < |b| ==> b[i] in a
  {
    forall i | 0 <= i < |a| ensures a[i] in b {
      assert a[i] in multiset(b);
    }
    forall i | 0 <= i < |b| ensures b[i] in a {
      assert b[i] in multiset(a);
    }
  }

  /**
   * The price sorts are stable: products of equal price keep the relative
   * order they had after filtering.
   */
  lemma SortKeepsEqualPricesInOrder(products: seq<Product>, search: string, categories: seq<string>, sortType: string, previous: seq<Product>, price: int)
    requires products != []
    ensures var r := ApplyFilterAndSort(products, search, categories, sortType, previous);
      var filtered := Filter(products, Passes(search, categories));
      Filter(r, HasKey(Price, price)) == Filter(filtered, HasKey(Price, price))
  {
    FilterStepsArePasses(products, search, categories);
    SortStepStable(Filter(products, Passes(search, categories)), sortType, price);
  }

  lemma SortStepStable(products: seq<Product>, sortType: string, price: int)
    ensures Filter(SortStep(products, sortType), HasKey(Price, price)) == Filter(products, HasKey(Price, price))
  {
    if sortType == LowToHigh {
      SortByStable(products, Price, price);
    } else if sortType == HighToLow {
      DescendingStable(products, price, -price);
    }
  }

  /** The descending sort is stable too; `negated` is `-price`, the key value shared by those products. */
  lemma DescendingStable(products: seq<Product>, price: int, negated: int)
    requires negated == -price
    ensures Filter(SortBy(products, NegatedPrice), HasKey(Price, price)) == Filter(products, HasKey(Price, price))
  {
    SortByStable(products, NegatedPrice, negated);
    NegatedKeySelectsSamePrice(SortBy(products, NegatedPrice), price, negated);
    NegatedKeySelectsSamePrice(products, price, negated);
  }

  /** Selecting by negated price `-p` selects the same products as selecting by price `p`. */
  lemma NegatedKeySelectsSamePrice(s: seq<Product>, price: int, negated: int)
    requires negated == -price
    ensures Filter(s, HasKey(NegatedPrice, negated)) == Filter(s, HasKey(Price, price))
  {
    var f := HasKey(NegatedPrice, negated);
    var g := HasKey(Price, price);
    forall x: Product ensures f(x) == g(x) {
      assert f(x) == (NegatedPrice(x) == negated);
      assert g(x) == (Price(x) == price);
    }
    SameSelection(s, f, g);
  }

  lemma {:induction false} SameSelection(s: seq<Product>, f: Product -> bool, g: Product -> bool)
    requires forall x :: f(x) == g(x)
    ensures Filter(s, f) == Filter(s, g)
  {
    if s != [] {
      SameSelection(s[1..], f, g);
    }
  }

  // ---------------------------------------------------------------------------
  // The category checkbox

  function Differs(name: string): string -> bool {
    c => c != name
  }

  /** A checkbox change: a selected category is removed, any other is appended at the end. */
  function ToggleCategory(categories: seq<string>, name: string): (r: seq<string>)
    ensures name in r <==> name !in categories
    ensures forall c :: c != name ==> (c in r <==> c in categories)
    ensures name !in categories ==> r == categories + [name]
    ensures name in categories ==> |r| < |categories|
  {
    if name in categories then
      var i :| 0 <= i < |categories| && categories[i] == name;
      FilterShrinks(categories, Differs(name), i);
      Filter(categories, Differs(name))
    else categories + [name]
  }

  /** A selection without repeated names stays without repeated names. */
  lemma ToggleKeepsDistinct(categories: seq<string>, name: string)
    requires Distinct(categories)
    ensures Distinct(ToggleCategory(categories, name))
  {
    if name in categories {
      FilterDistinct(categories, Differs(name));
    }
  }

  /** Toggling a name that was not selected twice restores the selection exactly. */
  lemma ToggleTwiceRestores(categories: seq<string>, name: string)
    requires name !in categories
    ensures ToggleCategory(ToggleCategory(categories, name), name) == categories
  {
    FilterAppend(categories, [name], Differs(name));
    FilterKeepsAll(categories, Differs(name));
  }

  /** Toggling any name twice restores which categories are selected. */
  lemma ToggleTwiceSameSelection(categories: seq<string>, name: string, c: string)
    ensures c in ToggleCategory(ToggleCategory(categories, name), name) <==> c in categories
  {
  }

  /** Toggling a selected name twice moves it to the end: ["Men", "Women"] becomes ["Women", "Men"]. */
  lemma ToggleTwiceMovesToEnd()
    ensures ToggleCategory(ToggleCategory(["Men", "Women"], "Men"), "Men") == ["Women", "Men"]
  {
  }
}
