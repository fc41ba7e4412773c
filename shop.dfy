/** The shop page's `filtered` list: the catalog narrowed by the active
    category, the search box and the price range, then put in the order the
    sort menu selects. The page's state (the URL's query parameters, the
    search text, the sort option and the price range) enters as values. */
module Shop {
  import opened Seqs
  import opened Text
  import opened Catalog

  // ---------------------------------------------------------------------
  // The active category, kept in the URL's query parameters

  /** The query parameters as `URLSearchParams` holds them: name/value pairs
      in order, where a name may repeat. */
  type Params = seq<(string, string)>

  predicate IsCategoryParam(kv: (string, string)) {
    kv.0 == "category"
  }

  /** `searchParams.get("category")`: the value of the first parameter with
      that name, if any. */
  function GetCategory(params: Params): (r: Option<string>)
    ensures r.None? <==> forall i :: 0 <= i < |params| ==> params[i].0 != "category"
    ensures r.Some? ==> exists i :: 0 <= i < |params| && params[i] == ("category", r.value)
                                    && forall j :: 0 <= j < i ==> params[j].0 != "category"
  {
    var kv := Find(params, IsCategoryParam);
    if kv.Some? then Some(kv.value.1) else None
  }

  /** `searchParams.get("category") || "all"`: a missing or empty parameter
      means every category. */
  function ActiveCategory(params: Params): (c: string)
    ensures c != ""
    ensures GetCategory(params).None? ==> c == "all"
    ensures GetCategory(params) == Some("") ==> c == "all"
    ensures GetCategory(params).Some? && GetCategory(params).value != "" ==>
              c == GetCategory(params).value
  {
    match GetCategory(params)
    case None => "all"
    case Some(v) => if v == "" then "all" else v
  }

  /** `handleCategory`: the parameters the page is navigated to when a
      category pill is clicked; "all" clears them. */
  function HandleCategory(catId: string): (params: Params)
    ensures catId == "all" ==> params == []
    ensures catId != "all" ==> params == [("category", catId)]
  {
    if catId == "all" then [] else [("category", catId)]
  }

  /** After a click on a pill the page shows that pill's category; an empty
      id shows every category, as "all" does. */
  lemma HandleCategoryShows(catId: string)
    ensures ActiveCategory(HandleCategory(catId)) == if catId == "" then "all" else catId
  {
    var params := HandleCategory(catId);
    if catId != "all" {
      assert IsCategoryParam(params[0]);
      assert GetCategory(params) == Some(catId);
    }
  }

  /** With no parameters at all the page shows every category. */
  lemma NoParamsShowsAll()
    ensures ActiveCategory([]) == "all"
  {
  }

  // ---------------------------------------------------------------------
  // The three filters

  /** The category step keeps a product when the category is "all" or is
      the product's own. */
  predicate InCategory(category: string, p: Product) {
    category == "all" || p.category == category
  }

  /** The search step's test: the query, lower-cased but not trimmed, occurs
      in the lower-cased title or the lower-cased description. */
  predicate MatchesQuery(q: string, p: Product) {
    Includes(ToLower(p.title), q) || Includes(ToLower(p.description), q)
  }

  /** The search step keeps a product when the search text trims to nothing
      or the product matches the lower-cased search text. */
  predicate MatchesSearch(search: string, p: Product) {
    Trim(search) == [] || MatchesQuery(ToLower(search), p)
  }

  /** The price step: both bounds inclusive. */
  predicate InPriceRange(lo: int, hi: int, p: Product) {
    p.price >= lo && p.price <= hi
  }

  function CategoryTest(category: string): Product -> bool {
    p => InCategory(category, p)
  }

  function SearchTest(search: string): Product -> bool {
    p => MatchesSearch(search, p)
  }

  function PriceTest(lo: int, hi: int): Product -> bool {
    p => InPriceRange(lo, hi, p)
  }

  /** `if (activeCategory !== "all") result = result.filter(...)`. */
  function ByCategory(s: seq<Product>, category: string): seq<Product> {
    if category != "all" then Filter(s, (p: Product) => p.category == category) else s
  }

  /** `if (search.trim()) { q = search.toLowerCase(); result = result.filter(...) }`. */
  function BySearch(s: seq<Product>, search: string): seq<Product> {
    if Trim(search) != [] then
      var q := ToLower(search);
      Filter(s, (p: Product) => MatchesQuery(q, p))
    else s
  }

  /** `result.filter((p) => p.price >= priceRange[0] && p.price <= priceRange[1])`. */
  function ByPrice(s: seq<Product>, lo: int, hi: int): seq<Product> {
    Filter(s, PriceTest(lo, hi))
  }

  /** The category step is a filter by `InCategory`: for "all" it drops
      nothing, otherwise it keeps exactly the products of that category. */
  lemma {:induction false} ByCategoryIsFilter(s: seq<Product>, category: string)
    ensures ByCategory(s, category) == Filter(s, CategoryTest(category))
    ensures category == "all" ==> ByCategory(s, category) == s
    ensures category != "all" ==>
              forall i :: 0 <= i < |ByCategory(s, category)| ==>
                ByCategory(s, category)[i].category == category
  {
    if category == "all" {
      FilterKeepsAll(s, CategoryTest(category));
    } else {
      FilterExtensional(s, (p: Product) => p.category == category, CategoryTest(category));
    }
  }

  /** The search step is a filter by `MatchesSearch`. */
  lemma BySearchIsFilter(s: seq<Product>, search: string)
    ensures BySearch(s, search) == Filter(s, SearchTest(search))
  {
    if Trim(search) == [] {
      FilterKeepsAll(s, SearchTest(search));
    } else {
      var q := ToLower(search);
      FilterExtensional(s, (p: Product) => MatchesQuery(q, p), SearchTest(search));
    }
  }

  /** A search text that is all white space drops nothing; any other one
      keeps only products that match the lower-cased text, and all of them. */
  lemma BySearchKeeps(s: seq<Product>, search: string)
    ensures Blank(search) ==> BySearch(s, search) == s
    ensures !Blank(search) ==>
              forall i :: 0 <= i < |BySearch(s, search)| ==>
                MatchesQuery(ToLower(search), BySearch(s, search)[i])
    ensures !Blank(search) ==>
              forall p :: p in BySearch(s, search) <==> p in s && MatchesQuery(ToLower(search), p)
  {
    TrimEmptyIffBlank(search);
    if !Blank(search) {
      FilterMembership(s, (p: Product) => MatchesQuery(ToLower(search), p));
    }
  }

  /** Searching is case-insensitive in the search text: two texts with the
      same lower-case form keep the same products. */
  lemma SearchIgnoresCase(s: seq<Product>, search: string, other: string)
    requires ToLower(search) == ToLower(other)
    ensures BySearch(s, search) == BySearch(s, other)
  {
    BlankUnderLower(search, other);
    TrimEmptyIffBlank(search);
    TrimEmptyIffBlank(other);
  }

  /** Every product that survives the price step is within both bounds. */
  lemma ByPriceInRange(s: seq<Product>, lo: int, hi: int)
    ensures forall i :: 0 <= i < |ByPrice(s, lo, hi)| ==>
              lo <= ByPrice(s, lo, hi)[i].price <= hi
    ensures forall p :: p in ByPrice(s, lo, hi) <==> p in s && lo <= p.price <= hi
  {
    FilterMembership(s, PriceTest(lo, hi));
  }

  // ---------------------------------------------------------------------
  // The five sorts

  datatype SortOption = Featured | PriceAsc | PriceDesc | TopRated | Newest

  /** The decimal value of a string of ASCII digits, most significant first. */
  function DecimalValue(s: string): (n: nat)
    requires AllDigits(s)
  {
    if s == [] then 0
    else DecimalValue(s[..|s| - 1]) * 10 + (s[|s| - 1] as int - '0' as int)
  }

  /** `Number(id)` for an id made of decimal digits (the empty id included,
      which `Number` reads as 0). Other ids are read as 0 too: see the
      README for what that leaves out. */
  function IdNumber(id: string): nat {
    if AllDigits(id) then DecimalValue(id) else 0
  }

  /** The sort key each option orders by, ascending. */
  function Key(opt: SortOption, p: Product): int {
    match opt
    case Featured => if p.featured then 0 else 1
    case PriceAsc => p.price
    case PriceDesc => -p.price
    case TopRated => -p.rating
    case Newest => -(IdNumber(p.id) as int)
  }

  /** The comparators passed to `sort`, as written for each option; each is
      the difference of the two keys, so the comparator is a consistent
      ordering by `Key`. */
  function Compare(opt: SortOption, a: Product, b: Product): (c: int)
    ensures c == Key(opt, a) - Key(opt, b)
  {
    match opt
    case PriceAsc => a.price - b.price
    case PriceDesc => b.price - a.price
    case TopRated => b.rating - a.rating
    case Newest => IdNumber(b.id) - IdNumber(a.id)
    case Featured => (if b.featured then 1 else 0) - (if a.featured then 1 else 0)
  }

  predicate SortedBy(opt: SortOption, s: seq<Product>) {
    forall i, j :: 0 <= i < j < |s| ==> Key(opt, s[i]) <= Key(opt, s[j])
  }

  /** Insertion of `x` into a sorted list before the first element it does
      not compare after; an element equal to `x` therefore stays behind it. */
  function Insert(opt: SortOption, x: Product, s: seq<Product>): (r: seq<Product>)
    ensures |r| == |s| + 1
  {
    if s == [] then [x]
    else if Compare(opt, x, s[0]) <= 0 then [x] + s
    else [s[0]] + Insert(opt, x, s[1..])
  }

  /** `[...result].sort(comparator)`. The language requires this sort to be
      stable, so it is the stable insertion sort by `Compare`. */
  function SortBy(opt: SortOption, s: seq<Product>): (r: seq<Product>)
    ensures |r| == |s|
  {
    if s == [] then []
    else Insert(opt, s[0], SortBy(opt, s[1..]))
  }

  /** An insertion adds exactly the inserted element. */
  lemma {:induction false} InsertPermutation(opt: SortOption, x: Product, s: seq<Product>)
    ensures multiset(Insert(opt, x, s)) == multiset(s) + multiset{x}
  {
    if s != [] && Compare(opt, x, s[0]) > 0 {
      InsertPermutation(opt, x, s[1..]);
      assert s == [s[0]] + s[1..];
    }
  }

  /** Every sort is a permutation of its input. */
  lemma {:induction false} SortByPermutation(opt: SortOption, s: seq<Product>)
    ensures multiset(SortBy(opt, s)) == multiset(s)
  {
    if s != [] {
      SortByPermutation(opt, s[1..]);
      InsertPermutation(opt, s[0], SortBy(opt, s[1..]));
      assert s == [s[0]] + s[1..];
    }
  }

  /** Every element of an insertion is the inserted one or an old one. */
  lemma InsertFrom(opt: SortOption, x: Product, s: seq<Product>, j: int)
    requires 0 <= j < |Insert(opt, x, s)|
    ensures Insert(opt, x, s)[j] == x || Insert(opt, x, s)[j] in s
  {
    InsertPermutation(opt, x, s);
    var r := Insert(opt, x, s);
    assert r[j] in multiset(r);
  }

  lemma {:induction false} InsertSorted(opt: SortOption, x: Product, s: seq<Product>)
    requires SortedBy(opt, s)
    ensures SortedBy(opt, Insert(opt, x, s))
  {
    if s == [] {
    } else if Compare(opt, x, s[0]) <= 0 {
      InsertSortedFront(opt, x, s);
    } else {
      InsertSorted(opt, x, s[1..]);
      InsertSortedBehind(opt, x, s);
    }
  }

  /** `x` goes in front of a sorted list whose head does not come before it. */
  lemma InsertSortedFront(opt: SortOption, x: Product, s: seq<Product>)
    requires SortedBy(opt, s) && s != [] && Key(opt, x) <= Key(opt, s[0])
    ensures SortedBy(opt, [x] + s)
  {
    var r := [x] + s;
    forall i, j | 0 <= i < j < |r|
      ensures Key(opt, r[i]) <= Key(opt, r[j])
    {
      assert r[j] == s[j - 1];
      if i > 0 {
        assert r[i] == s[i - 1];
      }
    }
  }

  /** The head stays in front when `x` goes behind it. */
  lemma InsertSortedBehind(opt: SortOption, x: Product, s: seq<Product>)
    requires SortedBy(opt, s) && s != [] && Compare(opt, x, s[0]) > 0
    requires SortedBy(opt, Insert(opt, x, s[1..]))
    ensures SortedBy(opt, Insert(opt, x, s))
  {
    var t := Insert(opt, x, s[1..]);
    var r := Insert(opt, x, s);
    assert r == [s[0]] + t;
    forall j | 0 <= j < |t|
      ensures Key(opt, s[0]) <= Key(opt, t[j])
    {
      InsertFrom(opt, x, s[1..], j);
      if t[j] != x {
        var k :| 0 <= k < |s[1..]| && s[1..][k] == t[j];
        assert s[1..][k] == s[k + 1];
      }
    }
    forall i, j | 0 <= i < j < |r|
      ensures Key(opt, r[i]) <= Key(opt, r[j])
    {
      assert r[j] == t[j - 1];
      if i > 0 {
        assert r[i] == t[i - 1];
      }
    }
  }

  /** Every sort leaves the list ordered by its key. */
  lemma {:induction false} SortBySorted(opt: SortOption, s: seq<Product>)
    ensures SortedBy(opt, SortBy(opt, s))
  {
    if s != [] {
      SortBySorted(opt, s[1..]);
      InsertSorted(opt, s[0], SortBy(opt, s[1..]));
    }
  }

  function HasKey(opt: SortOption, k: int): Product -> bool {
    p => Key(opt, p) == k
  }

  /** Inserting into a sorted list keeps the order among equal keys: the
      new element comes before every element with its own key. */
  lemma {:induction false} InsertStable(opt: SortOption, x: Product, s: seq<Product>, k: int)
    ensures Filter(Insert(opt, x, s), HasKey(opt, k)) ==
              (if Key(opt, x) == k then [x] else []) + Filter(s, HasKey(opt, k))
  {
    var h := HasKey(opt, k);
    if s == [] {
      FilterCons(x, [], h);
      assert [x] + [] == [x];
    } else if Compare(opt, x, s[0]) <= 0 {
      FilterCons(x, s, h);
    } else {
      InsertStable(opt, x, s[1..], k);
      InsertStableBehind(opt, x, s, k);
    }
  }

  /** The step of `InsertStable` where `x` goes behind the head. */
  lemma InsertStableBehind(opt: SortOption, x: Product, s: seq<Product>, k: int)
    requires s != [] && Compare(opt, x, s[0]) > 0
    requires Filter(Insert(opt, x, s[1..]), HasKey(opt, k)) ==
               (if Key(opt, x) == k then [x] else []) + Filter(s[1..], HasKey(opt, k))
    ensures Filter(Insert(opt, x, s), HasKey(opt, k)) ==
              (if Key(opt, x) == k then [x] else []) + Filter(s, HasKey(opt, k))
  {
    var h := HasKey(opt, k);
    var t := Insert(opt, x, s[1..]);
    assert Insert(opt, x, s) == [s[0]] + t;
    FilterConsAfter(s, t, if Key(opt, x) == k then [x] else [], h);
  }

  /** Stability: the products that share a key appear in the sorted list in
      the order they had before. */
  lemma {:induction false} SortByStable(opt: SortOption, s: seq<Product>, k: int)
    ensures Filter(SortBy(opt, s), HasKey(opt, k)) == Filter(s, HasKey(opt, k))
  {
    if s != [] {
      SortByStable(opt, s[1..], k);
      InsertStable(opt, s[0], SortBy(opt, s[1..]), k);
    }
  }

  /** The orders the four keyed options promise. */
  lemma SortOrders(s: seq<Product>)
    ensures forall i, j :: 0 <= i < j < |SortBy(PriceAsc, s)| ==>
              SortBy(PriceAsc, s)[i].price <= SortBy(PriceAsc, s)[j].price
    ensures forall i, j :: 0 <= i < j < |SortBy(PriceDesc, s)| ==>
              SortBy(PriceDesc, s)[i].price >= SortBy(PriceDesc, s)[j].price
    ensures forall i, j :: 0 <= i < j < |SortBy(TopRated, s)| ==>
              SortBy(TopRated, s)[i].rating >= SortBy(TopRated, s)[j].rating
    ensures forall i, j :: 0 <= i < j < |SortBy(Newest, s)| ==>
              IdNumber(SortBy(Newest, s)[i].id) >= IdNumber(SortBy(Newest, s)[j].id)
  {
    SortBySorted(PriceAsc, s);
    SortBySorted(PriceDesc, s);
    SortBySorted(TopRated, s);
    SortBySorted(Newest, s);
  }

  predicate IsFeatured(p: Product) {
    p.featured
  }

  predicate IsNotFeatured(p: Product) {
    !p.featured
  }

  /** A list sorted by the featured key is its featured products followed by
      the others. */
  lemma FeaturedSplit(s: seq<Product>)
    requires SortedBy(Featured, s)
    ensures s == Filter(s, HasKey(Featured, 0)) + Filter(s, HasKey(Featured, 1))
  {
    var h0, h1 := HasKey(Featured, 0), HasKey(Featured, 1);
    forall i, j | 0 <= i < j < |s| && !h0(s[i])
      ensures !h0(s[j])
    {
      assert Key(Featured, s[i]) <= Key(Featured, s[j]);
    }
    PartitionedSplit(s, h0, h1);
  }

  /** The default sort puts every featured product before every other one
      and keeps the catalog's order within each group. */
  lemma FeaturedSort(s: seq<Product>)
    ensures SortBy(Featured, s) == Filter(s, IsFeatured) + Filter(s, IsNotFeatured)
  {
    var r := SortBy(Featured, s);
    SortBySorted(Featured, s);
    FeaturedSplit(r);
    SortByStable(Featured, s, 0);
    SortByStable(Featured, s, 1);
    FilterExtensional(s, HasKey(Featured, 0), IsFeatured);
    FilterExtensional(s, HasKey(Featured, 1), IsNotFeatured);
  }

  // ---------------------------------------------------------------------
  // The whole pipeline

  /** The page state the `filtered` list depends on; the price bounds are in
      cents. */
  datatype View = View(params: Params, search: string, sort: SortOption, lo: int, hi: int)

  /** The state the page opens in: no query parameters, an empty search, the
      featured sort and the range 0 to 10 dollars. */
  function InitialView(params: Params): View {
    View(params, "", Featured, 0, 1000)
  }

  /** `filtered`. */
  function Filtered(products: seq<Product>, v: View): seq<Product> {
    var category := ActiveCategory(v.params);
    SortBy(v.sort, ByPrice(BySearch(ByCategory(products, category), v.search), v.lo, v.hi))
  }

  /** The three tests together. */
  predicate Shown(v: View, p: Product) {
    InCategory(ActiveCategory(v.params), p) && MatchesSearch(v.search, p) &&
    InPriceRange(v.lo, v.hi, p)
  }

  function ShownTest(v: View): Product -> bool {
    p => Shown(v, p)
  }

  /** Before sorting, the three steps are one filter of the catalog. */
  lemma FilterSteps(products: seq<Product>, v: View)
    ensures ByPrice(BySearch(ByCategory(products, ActiveCategory(v.params)), v.search), v.lo, v.hi)
            == Filter(products, ShownTest(v))
  {
    var category := ActiveCategory(v.params);
    var c := CategoryTest(category);
    var q := SearchTest(v.search);
    var cq := (p: Product) => InCategory(category, p) && MatchesSearch(v.search, p);
    ByCategoryIsFilter(products, category);
    BySearchIsFilter(ByCategory(products, category), v.search);
    FilterFilter(products, c, q, cq);
    FilterFilter(products, cq, PriceTest(v.lo, v.hi), ShownTest(v));
  }

  /** The list shown is a rearrangement of the catalog's products that pass
      the three tests: nothing is added or duplicated, nothing that passes
      is lost. */
  lemma FilteredIsPermutation(products: seq<Product>, v: View)
    ensures multiset(Filtered(products, v)) == multiset(Filter(products, ShownTest(v)))
    ensures forall p :: p in Filtered(products, v) <==> p in products && Shown(v, p)
  {
    var t := Filter(products, ShownTest(v));
    var f := Filtered(products, v);
    assert f == SortBy(v.sort, t) by {
      FilterSteps(products, v);
    }
    SortByPermutation(v.sort, t);
    SameMultisetSameMembers(f, t);
    FilterMembership(products, ShownTest(v));
  }

  /** Every product shown passes the category, search and price tests, and
      the list is in the order of the selected sort. */
  lemma FilteredSound(products: seq<Product>, v: View)
    ensures forall i :: 0 <= i < |Filtered(products, v)| ==> Shown(v, Filtered(products, v)[i])
    ensures SortedBy(v.sort, Filtered(products, v))
  {
    FilteredIsPermutation(products, v);
    FilterSteps(products, v);
    SortBySorted(v.sort, Filter(products, ShownTest(v)));
    forall i | 0 <= i < |Filtered(products, v)|
      ensures Shown(v, Filtered(products, v)[i])
    {
      assert Filtered(products, v)[i] in Filtered(products, v);
    }
  }

  /** Under the featured sort the list is the featured products that pass
      the tests, in catalog order, then the other ones, in catalog order. */
  lemma FilteredFeatured(products: seq<Product>, v: View)
    requires v.sort == Featured
    ensures Filtered(products, v) ==
              Filter(Filter(products, ShownTest(v)), IsFeatured) +
              Filter(Filter(products, ShownTest(v)), IsNotFeatured)
  {
    FilterSteps(products, v);
    FeaturedSort(Filter(products, ShownTest(v)));
  }

  /** On the opening view with no category, every catalog product priced
      within 0 to 10 dollars is shown, featured ones first. */
  lemma OpeningView(products: seq<Product>)
    ensures Filtered(products, InitialView([])) ==
              Filter(Filter(products, PriceTest(0, 1000)), IsFeatured) +
              Filter(Filter(products, PriceTest(0, 1000)), IsNotFeatured)
  {
    var v := InitialView([]);
    assert ActiveCategory(v.params) == "all" by {
      NoParamsShowsAll();
    }
    assert Trim(v.search) == [];
    forall i | 0 <= i < |products|
      ensures ShownTest(v)(products[i]) == PriceTest(0, 1000)(products[i])
    {
      assert InCategory(ActiveCategory(v.params), products[i]);
      assert MatchesSearch(v.search, products[i]);
    }
    FilterExtensional(products, ShownTest(v), PriceTest(0, 1000));
    FilteredFeatured(products, v);
  }
}
