/** `ProductFilter` (shop/filters.py): the query-string filters over the product
    list. Each filter keeps a subsequence of the products; the filter set applies
    the filters whose value is present, one after another. */
module Filters {
  import opened Results
  import opened Seqs
  import opened Text
  import opened Models

  /** One declared filter together with the value submitted for it. Number values
      are decimal amounts, as a `NumberFilter` parses them. */
  datatype FieldFilter =
    | MinPrice(amount: real)          // price__gte
    | MaxPrice(amount: real)          // price__lte
    | NameHas(text: string)           // name__icontains
    | MaterialHas(text: string)       // material__icontains
    | ColorHas(text: string)          // color__icontains
    | Featured(flag: bool)            // is_featured
    | InStockIs(raw: string)          // filter_in_stock
    | CategoryIs(amount: real)        // category__id
    | CategoryNameHas(text: string)   // category__name__icontains

  /** The cleaned query parameters. An absent number or flag is `None`; an absent
      text parameter is the empty string. */
  datatype Query = Query(
    minPrice: Option<real>, maxPrice: Option<real>,
    name: string, material: string, color: string,
    isFeatured: Option<bool>, inStock: string,
    category: Option<real>, categoryName: string)

  /** A price in cents as the decimal amount the database compares. */
  function Amount(cents: int): real {
    cents as real / 100.0
  }

  /** The integer an exact lookup on an integer column compares a decimal with:
      the value truncated toward zero, as Python's `int()` does. */
  function TruncateToInt(v: real): (n: int)
    ensures 0.0 <= v ==> n as real <= v < n as real + 1.0
    ensures v < 0.0 ==> n as real - 1.0 < v <= n as real
  {
    if v >= 0.0 then v.Floor else -((-v).Floor)
  }

  /** `filter_in_stock`: a non-empty string is truthy, whatever it says. */
  predicate InStockValue(p: Product, value: string) {
    if value != "" then p.stock > 0 else p.stock == 0
  }

  /** The lookup a single filter performs on one product. The category id is
      compared after truncation to an integer; the category name is read through
      the product's foreign key. A stock test with a non-empty value is the
      product's `in_stock`. */
  function Keeps(f: FieldFilter, cats: seq<Category>, p: Product): (r: bool)
    ensures f.InStockIs? && f.raw != "" ==> (r <==> InStock(p))
    ensures f.CategoryNameHas? && r ==>
      exists c :: c in cats && c.id == p.categoryId && IContains(c.name, f.text)
  {
    match f
    case MinPrice(v) => Amount(p.price) >= v
    case MaxPrice(v) => Amount(p.price) <= v
    case NameHas(s) => IContains(p.name, s)
    case MaterialHas(s) => IContains(p.material, s)
    case ColorHas(s) => IContains(p.color, s)
    case Featured(b) => p.isFeatured == b
    case InStockIs(v) => InStockValue(p, v)
    case CategoryIs(v) => p.categoryId == TruncateToInt(v)
    case CategoryNameHas(s) =>
      match Find(cats, CategoryKey, p.categoryId)
      case Some(c) => IContains(c.name, s)
      case None => false
  }

  function Test(f: FieldFilter, cats: seq<Category>): Product -> bool {
    p => Keeps(f, cats, p)
  }

  /** One filter applied to a queryset. */
  function Apply(ps: seq<Product>, f: FieldFilter, cats: seq<Category>): (r: seq<Product>)
    ensures forall p :: p in r <==> p in ps && Keeps(f, cats, p)
    ensures IsSubseq(r, ps)
  {
    FilterIsSubseq(ps, Test(f, cats));
    Filter(ps, Test(f, cats))
  }

  /** The method filter behind `in_stock`, called with the raw parameter. */
  function FilterInStock(ps: seq<Product>, value: string): (r: seq<Product>)
    ensures value != "" ==> forall p :: p in r <==> p in ps && p.stock > 0
    ensures value == "" ==> forall p :: p in r <==> p in ps && p.stock == 0
    ensures IsSubseq(r, ps)
  {
    Apply(ps, InStockIs(value), [])
  }

  /** The filters the filter set runs: those whose value is not empty. They are
      grouped here by kind; the order in which they run does not change the
      result (`ApplyAllOrderIndependent`). */
  function Active(q: Query): (fs: seq<FieldFilter>)
    ensures forall f :: f in fs && f.InStockIs? ==> f.raw != ""
  {
    PriceFilters(q) + TextFilters(q) + FlagFilters(q) + CategoryFilters(q)
  }

  function PriceFilters(q: Query): seq<FieldFilter> {
    (if q.minPrice.Some? then [MinPrice(q.minPrice.value)] else [])
    + (if q.maxPrice.Some? then [MaxPrice(q.maxPrice.value)] else [])
  }

  function TextFilters(q: Query): seq<FieldFilter> {
    (if q.name != "" then [NameHas(q.name)] else [])
    + (if q.material != "" then [MaterialHas(q.material)] else [])
    + (if q.color != "" then [ColorHas(q.color)] else [])
  }

  function FlagFilters(q: Query): seq<FieldFilter> {
    (if q.isFeatured.Some? then [Featured(q.isFeatured.value)] else [])
    + (if q.inStock != "" then [InStockIs(q.inStock)] else [])
  }

  function CategoryFilters(q: Query): seq<FieldFilter> {
    (if q.category.Some? then [CategoryIs(q.category.value)] else [])
    + (if q.categoryName != "" then [CategoryNameHas(q.categoryName)] else [])
  }

  /** Applies the filters one after another. */
  function ApplyAll(ps: seq<Product>, fs: seq<FieldFilter>, cats: seq<Category>): seq<Product>
    decreases |fs|
  {
    if |fs| == 0 then ps else ApplyAll(Apply(ps, fs[0], cats), fs[1..], cats)
  }

  /** `ProductFilter(query, queryset).qs`: exactly the products that pass every
      active filter, in their original order. */
  function FilterProducts(ps: seq<Product>, q: Query, cats: seq<Category>): (r: seq<Product>)
    ensures forall p :: p in r <==> p in ps && KeepsAll(Active(q), cats, p)
    ensures IsSubseq(r, ps)
  {
    ApplyAllIsConjunction(ps, Active(q), cats);
    FilterIsSubseq(ps, TestAll(Active(q), cats));
    ApplyAll(ps, Active(q), cats)
  }

  // ---------------------------------------------------------------------
  // A chain of filters is one filter by the conjunction.
  // ---------------------------------------------------------------------

  /** A product passes every filter of `fs`. */
  predicate KeepsAll(fs: seq<FieldFilter>, cats: seq<Category>, p: Product) {
    forall f :: f in fs ==> Keeps(f, cats, p)
  }

  function TestAll(fs: seq<FieldFilter>, cats: seq<Category>): Product -> bool {
    p => KeepsAll(fs, cats, p)
  }

  lemma {:induction false} ApplyAllIsConjunction(ps: seq<Product>, fs: seq<FieldFilter>, cats: seq<Category>)
    ensures ApplyAll(ps, fs, cats) == Filter(ps, TestAll(fs, cats))
    decreases |fs|
  {
    if |fs| == 0 {
      FilterKeepsAll(ps, TestAll(fs, cats));
    } else {
      var f, rest := fs[0], fs[1..];
      ApplyAllIsConjunction(Apply(ps, f, cats), rest, cats);
      FilterFuse(ps, Test(f, cats), TestAll(rest, cats));
      forall p | p in ps ensures Both(Test(f, cats), TestAll(rest, cats))(p) == TestAll(fs, cats)(p) {
        assert forall g :: g in fs <==> g == f || g in rest;
      }
      FilterAgree(ps, Both(Test(f, cats), TestAll(rest, cats)), TestAll(fs, cats));
    }
  }

  /** The order in which filters are applied does not matter, nor does repeating one:
      only the set of filters counts. */
  lemma ApplyAllOrderIndependent(ps: seq<Product>, fs: seq<FieldFilter>, gs: seq<FieldFilter>, cats: seq<Category>)
    requires forall f :: f in fs <==> f in gs
    ensures ApplyAll(ps, fs, cats) == ApplyAll(ps, gs, cats)
  {
    ApplyAllIsConjunction(ps, fs, cats);
    ApplyAllIsConjunction(ps, gs, cats);
    FilterAgree(ps, TestAll(fs, cats), TestAll(gs, cats));
  }

  /** Running the filters over their own output changes nothing. */
  lemma ApplyAllIdempotent(ps: seq<Product>, fs: seq<FieldFilter>, cats: seq<Category>)
    ensures ApplyAll(ApplyAll(ps, fs, cats), fs, cats) == ApplyAll(ps, fs, cats)
  {
    ApplyAllIsConjunction(ps, fs, cats);
    ApplyAllIsConjunction(ApplyAll(ps, fs, cats), fs, cats);
    FilterIdempotent(ps, TestAll(fs, cats));
  }

  // ---------------------------------------------------------------------
  // What the query selects, parameter by parameter.
  // ---------------------------------------------------------------------

  /** The query's meaning written out per parameter; an absent parameter imposes nothing. */
  predicate Matches(q: Query, cats: seq<Category>, p: Product) {
    && PriceMatches(q, p)
    && TextMatches(q, p)
    && FlagMatches(q, p)
    && CategoryMatches(q, cats, p)
  }

  predicate PriceMatches(q: Query, p: Product) {
    && (q.minPrice.Some? ==> Amount(p.price) >= q.minPrice.value)
    && (q.maxPrice.Some? ==> Amount(p.price) <= q.maxPrice.value)
  }

  /** An empty text matches everything, so no presence test is needed. */
  predicate TextMatches(q: Query, p: Product) {
    && IContains(p.name, q.name)
    && IContains(p.material, q.material)
    && IContains(p.color, q.color)
  }

  predicate FlagMatches(q: Query, p: Product) {
    && (q.isFeatured.Some? ==> p.isFeatured == q.isFeatured.value)
    && (q.inStock != "" ==> p.stock > 0)
  }

  predicate CategoryMatches(q: Query, cats: seq<Category>, p: Product) {
    && (q.category.Some? ==> p.categoryId == TruncateToInt(q.category.value))
    && (q.categoryName != "" ==>
          exists c :: c in cats && c.id == p.categoryId && IContains(c.name, q.categoryName))
  }

  lemma KeepsAllAppend(a: seq<FieldFilter>, b: seq<FieldFilter>, cats: seq<Category>, p: Product)
    ensures KeepsAll(a + b, cats, p) <==> KeepsAll(a, cats, p) && KeepsAll(b, cats, p)
  {
    assert forall f :: f in a + b <==> f in a || f in b;
  }

  lemma KeepsAllOne(w: seq<FieldFilter>, cats: seq<Category>, p: Product)
    requires |w| <= 1
    ensures KeepsAll(w, cats, p) <==> (|w| == 1 ==> Keeps(w[0], cats, p))
  {
    if |w| == 1 {
      assert w[0] in w;
    }
  }

  lemma KeepsAllPrice(q: Query, cats: seq<Category>, p: Product)
    ensures KeepsAll(PriceFilters(q), cats, p) <==> PriceMatches(q, p)
  {
    var w1 := if q.minPrice.Some? then [MinPrice(q.minPrice.value)] else [];
    var w2 := if q.maxPrice.Some? then [MaxPrice(q.maxPrice.value)] else [];
    KeepsAllOne(w1, cats, p);
    KeepsAllOne(w2, cats, p);
    KeepsAllAppend(w1, w2, cats, p);
  }

  lemma KeepsAllText(q: Query, cats: seq<Category>, p: Product)
    ensures KeepsAll(TextFilters(q), cats, p) <==> TextMatches(q, p)
  {
    var w1 := if q.name != "" then [NameHas(q.name)] else [];
    var w2 := if q.material != "" then [MaterialHas(q.material)] else [];
    var w3 := if q.color != "" then [ColorHas(q.color)] else [];
    KeepsAllOne(w1, cats, p);
    KeepsAllOne(w2, cats, p);
    KeepsAllOne(w3, cats, p);
    KeepsAllAppend(w1, w2, cats, p);
    KeepsAllAppend(w1 + w2, w3, cats, p);
  }

  lemma KeepsAllFlags(q: Query, cats: seq<Category>, p: Product)
    ensures KeepsAll(FlagFilters(q), cats, p) <==> FlagMatches(q, p)
  {
    var w1 := if q.isFeatured.Some? then [Featured(q.isFeatured.value)] else [];
    var w2 := if q.inStock != "" then [InStockIs(q.inStock)] else [];
    KeepsAllOne(w1, cats, p);
    KeepsAllOne(w2, cats, p);
    KeepsAllAppend(w1, w2, cats, p);
  }

  /** Category ids are primary keys, so the category a product points at is the
      one `category__name` looks through. */
  lemma KeepsAllCategory(q: Query, cats: seq<Category>, p: Product)
    requires UniqueBy(cats, CategoryKey)
    ensures KeepsAll(CategoryFilters(q), cats, p) <==> CategoryMatches(q, cats, p)
  {
    var w1 := if q.category.Some? then [CategoryIs(q.category.value)] else [];
    var w2 := if q.categoryName != "" then [CategoryNameHas(q.categoryName)] else [];
    KeepsAllOne(w1, cats, p);
    KeepsAllOne(w2, cats, p);
    KeepsAllAppend(w1, w2, cats, p);
    if q.categoryName != "" && exists c :: c in cats && c.id == p.categoryId && IContains(c.name, q.categoryName) {
      var c :| c in cats && c.id == p.categoryId && IContains(c.name, q.categoryName);
      CategoryNameThroughKey(cats, p, q.categoryName, c);
    }
  }

  /** Passing the whole filter set is passing each group of it. */
  lemma KeepsAllGroups(q: Query, cats: seq<Category>, p: Product)
    ensures KeepsAll(Active(q), cats, p) <==>
      && KeepsAll(PriceFilters(q), cats, p) && KeepsAll(TextFilters(q), cats, p)
      && KeepsAll(FlagFilters(q), cats, p) && KeepsAll(CategoryFilters(q), cats, p)
  {
    var a, b, c := PriceFilters(q), TextFilters(q), FlagFilters(q);
    KeepsAllAppend(a, b, cats, p);
    KeepsAllAppend(a + b, c, cats, p);
    KeepsAllAppend(a + b + c, CategoryFilters(q), cats, p);
  }

  lemma KeepsAllActive(q: Query, cats: seq<Category>, p: Product)
    requires UniqueBy(cats, CategoryKey)
    ensures KeepsAll(Active(q), cats, p) <==> Matches(q, cats, p)
  {
    KeepsAllPrice(q, cats, p);
    KeepsAllText(q, cats, p);
    KeepsAllFlags(q, cats, p);
    KeepsAllCategory(q, cats, p);
    KeepsAllGroups(q, cats, p);
  }

  /** The filter set keeps exactly the products that match every supplied parameter. */
  lemma FilterProductsMatches(ps: seq<Product>, q: Query, cats: seq<Category>)
    requires UniqueBy(cats, CategoryKey)
    ensures forall p :: p in FilterProducts(ps, q, cats) <==> p in ps && Matches(q, cats, p)
  {
    forall p ensures KeepsAll(Active(q), cats, p) <==> Matches(q, cats, p) {
      KeepsAllActive(q, cats, p);
    }
  }

  /** A minimum above the maximum selects nothing. */
  lemma EmptyPriceRange(ps: seq<Product>, q: Query, cats: seq<Category>)
    requires q.minPrice.Some? && q.maxPrice.Some? && q.minPrice.value > q.maxPrice.value
    ensures FilterProducts(ps, q, cats) == []
  {
    ApplyAllIsConjunction(ps, Active(q), cats);
    forall p | p in ps ensures !TestAll(Active(q), cats)(p) {
      KeepsAllGroups(q, cats, p);
      KeepsAllPrice(q, cats, p);
    }
    FilterNone(ps, TestAll(Active(q), cats));
  }

  /** The stock test reached through the filter set: an empty value is skipped
      before the method runs, so any value that reaches it, "false" and "0"
      included, selects the products in stock. */
  lemma InStockAlwaysMeansInStock(ps: seq<Product>, q: Query, cats: seq<Category>)
    requires q.inStock != ""
    ensures forall p :: p in FilterProducts(ps, q, cats) ==> p.stock > 0
    ensures FilterProducts(ps, q, cats) == FilterProducts(ps, q.(inStock := "false"), cats)
  {
    var q' := q.(inStock := "false");
    forall p | p in FilterProducts(ps, q, cats) ensures p.stock > 0 {
      KeepsAllGroups(q, cats, p);
      KeepsAllFlags(q, cats, p);
    }
    ApplyAllIsConjunction(ps, Active(q), cats);
    ApplyAllIsConjunction(ps, Active(q'), cats);
    forall p | p in ps ensures TestAll(Active(q), cats)(p) == TestAll(Active(q'), cats)(p) {
      KeepsAllGroups(q, cats, p);
      KeepsAllGroups(q', cats, p);
      KeepsAllFlags(q, cats, p);
      KeepsAllFlags(q', cats, p);
    }
    FilterAgree(ps, TestAll(Active(q), cats), TestAll(Active(q.(inStock := "false")), cats));
  }

  /** The name match ignores letter case. */
  lemma NameFilterIgnoresCase(ps: seq<Product>, s: string, cats: seq<Category>)
    ensures Apply(ps, NameHas(UpperAll(s)), cats) == Apply(ps, NameHas(s), cats)
  {
    forall p | p in ps ensures Test(NameHas(UpperAll(s)), cats)(p) == Test(NameHas(s), cats)(p) {
      IContainsIgnoresCase(p.name, s);
    }
    FilterAgree(ps, Test(NameHas(UpperAll(s)), cats), Test(NameHas(s), cats));
  }

  /** The text lookups are `icontains`: a product whose name, material and color
      contain the texts exactly, case included, passes all three. */
  lemma TextFiltersKeepExactMatches(ps: seq<Product>, q: Query, cats: seq<Category>)
    ensures forall p ::
      (p in ps && Contains(p.name, q.name) && Contains(p.material, q.material) && Contains(p.color, q.color))
        ==> KeepsAll(TextFilters(q), cats, p)
  {
    forall p | p in ps && Contains(p.name, q.name) && Contains(p.material, q.material)
      && Contains(p.color, q.color)
      ensures KeepsAll(TextFilters(q), cats, p)
    {
      ContainsImpliesIContains(p.name, q.name);
      ContainsImpliesIContains(p.material, q.material);
      ContainsImpliesIContains(p.color, q.color);
      KeepsAllText(q, cats, p);
    }
  }

  /** With unique category ids, `category_name` keeps a product exactly when its own
      category's name contains the text, ignoring case. */
  lemma CategoryNameThroughKey(cats: seq<Category>, p: Product, s: string, c: Category)
    requires UniqueBy(cats, CategoryKey) && c in cats && c.id == p.categoryId
    ensures Keeps(CategoryNameHas(s), cats, p) <==> IContains(c.name, s)
  {
    FindUnique(cats, CategoryKey, c);
  }

  /** A fractional `category` value selects the category of its integer part. */
  lemma CategoryValueTruncated(cats: seq<Category>, p: Product, v: real, n: nat)
    requires n as real <= v < n as real + 1.0
    ensures Keeps(CategoryIs(v), cats, p) <==> p.categoryId == n
  {
  }
}
