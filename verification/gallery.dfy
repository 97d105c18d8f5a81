/** The product gallery of `src/components/product-gallery.jsx`: the category
    list, the category and search filters, the reset of a stale category and
    the choice between the two empty states and the grid. */
module Gallery {
  import opened Seqs
  import opened Text
  import opened Catalog

  /** The filter that shows every category. */
  const AllTypes := "All"

  /** No element occurs twice. */
  predicate Distinct<T(==)>(s: seq<T>) {
    forall i, j :: 0 <= i < j < |s| ==> s[i] != s[j]
  }

  /** `Array.from(new Set(list)).filter(Boolean)`: the non-empty strings of
      `list`, each once, in order of first occurrence. */
  function Unique(list: seq<string>): (r: seq<string>)
    ensures Distinct(r)
    ensures forall x :: x in r <==> x in list && x != ""
    ensures forall i, j :: 0 <= i < j < |r| ==> FirstIndex(list, r[i]) < FirstIndex(list, r[j])
  {
    if list == [] then []
    else
      var init := list[..|list| - 1];
      var x := list[|list| - 1];
      assert list == init + [x];
      var u := Unique(init);
      forall y | y in init
        ensures FirstIndex(list, y) == FirstIndex(init, y)
      {
        FirstIndexAppend(init, [x], y);
      }
      if x == "" || x in init then u
      else
        FirstIndexUnique(list, x, |list| - 1);
        u + [x]
  }

  /** `products.map((p) => p.productType)`. */
  function ProductTypes(products: seq<Product>): (ts: seq<string>)
    ensures |ts| == |products|
    ensures forall i :: 0 <= i < |products| ==> ts[i] == products[i].productType
  {
    if products == [] then [] else [products[0].productType] + ProductTypes(products[1..])
  }

  /** `types`: the distinct non-empty categories of the products. */
  function Types(products: seq<Product>): (types: seq<string>)
    ensures Distinct(types)
    ensures forall t :: t in types <==>
      t != "" && exists i :: 0 <= i < |products| && products[i].productType == t
    ensures forall t :: t in types ==> t in ProductTypes(products)
    ensures forall i, j :: 0 <= i < j < |types| ==>
      FirstIndex(ProductTypes(products), types[i]) < FirstIndex(ProductTypes(products), types[j])
  {
    var ts := ProductTypes(products);
    forall t | t != "" && (exists i :: 0 <= i < |products| && products[i].productType == t)
      ensures t in ts
    {
      var i :| 0 <= i < |products| && products[i].productType == t;
      assert ts[i] == t;
    }
    Unique(ts)
  }

  /** `filters`: the button list, `'All'` first and then every category. */
  function Filters(products: seq<Product>): (fs: seq<string>)
    ensures fs != [] && fs[0] == AllTypes
    ensures fs[1..] == Types(products)
    ensures forall t :: t in fs <==>
      t == AllTypes || (t != "" && exists i :: 0 <= i < |products| && products[i].productType == t)
  {
    [AllTypes] + Types(products)
  }

  /** Every product the catalog produces has its category among the filters. */
  lemma NormalisedTypesListed(products: seq<Product>, i: int)
    requires 0 <= i < |products|
    requires products[i].productType != ""
    ensures products[i].productType in Types(products)
  {
    assert ProductTypes(products)[i] == products[i].productType;
  }

  /** The effect keeping `activeType` valid: a category that is no longer listed
      falls back to `'All'`. */
  function ReconcileActive(active: string, types: seq<string>): (r: string)
    ensures r == AllTypes || r in types
    ensures r == active <==> active == AllTypes || active in types
    ensures r != active ==> r == AllTypes
  {
    if active != AllTypes && active !in types then AllTypes else active
  }

  /** Applying the reset twice is the same as once. */
  lemma ReconcileIdempotent(active: string, types: seq<string>)
    ensures ReconcileActive(ReconcileActive(active, types), types) == ReconcileActive(active, types)
  {
  }

  /** The category stage: everything under `'All'`, else an exact type match. */
  predicate InCategory(p: Product, active: string)
    ensures active == AllTypes ==> InCategory(p, active)
    ensures active != AllTypes ==> (InCategory(p, active) <==> p.productType == active)
  {
    active == AllTypes || p.productType == active
  }

  /** `q` is the lower-cased infix of `query` starting at `a`, with only white space around it. */
  ghost predicate KeyAt(query: string, q: string, a: int) {
    && 0 <= a && a + |q| <= |query|
    && (forall i :: 0 <= i < |q| ==> q[i] == LowerChar(query[a + i]))
    && (forall i :: 0 <= i < a ==> IsWhiteSpace(query[i]))
    && (forall i :: a + |q| <= i < |query| ==> IsWhiteSpace(query[i]))
  }

  /** `query.trim().toLowerCase()`: the query without surrounding white space,
      lower-cased. */
  function SearchKey(query: string): (q: string)
    ensures exists a :: KeyAt(query, q, a)
    ensures q == [] || (!IsWhiteSpace(q[0]) && !IsWhiteSpace(q[|q| - 1]))
    ensures forall i :: 0 <= i < |q| ==> !('A' <= q[i] <= 'Z')
  {
    SearchKeyShape(query);
    Lower(Trim(query))
  }

  /** The shape of `Lower(Trim(query))`, which `SearchKey` promises. */
  lemma SearchKeyShape(query: string)
    ensures exists a :: KeyAt(query, Lower(Trim(query)), a)
    ensures var q := Lower(Trim(query)); q == [] || (!IsWhiteSpace(q[0]) && !IsWhiteSpace(q[|q| - 1]))
  {
    var t := Trim(query);
    var a := |query| - |TrimStart(query)|;
    assert TrimmedAt(query, t, a);
    assert KeyAt(query, Lower(t), a);
    if t != [] {
      LowerCharWhiteSpace(t[0]);
      LowerCharWhiteSpace(t[|t| - 1]);
    }
  }

  /** The search ignores case: queries that agree after lower-casing filter alike. */
  lemma SearchIgnoresCase(products: seq<Product>, active: string, q1: string, q2: string)
    requires Lower(q1) == Lower(q2)
    ensures SearchKey(q1) == SearchKey(q2)
    ensures Filtered(products, active, q1) == Filtered(products, active, q2)
  {
    LowerTrim(q1);
    LowerTrim(q2);
  }

  /** Some tag, lower-cased, contains `q` (`(p.tags || []).some(...)`). */
  predicate SomeTagContains(tags: seq<string>, q: string) {
    exists i :: 0 <= i < |tags| && Contains(Lower(tags[i]), q)
  }

  /** `needle` occurs somewhere in `hay`. */
  ghost predicate Occurs(hay: string, needle: string) {
    exists k :: OccursAt(hay, needle, k)
  }

  /** The search stage: an empty key keeps all; otherwise the key must occur in
      the lower-cased title or in some lower-cased tag. */
  predicate MatchesQuery(p: Product, q: string)
    ensures q == [] ==> MatchesQuery(p, q)
    ensures q != [] ==> (MatchesQuery(p, q) <==>
      Occurs(Lower(p.title), q) || exists i :: 0 <= i < |p.tags| && Occurs(Lower(p.tags[i]), q))
  {
    q == [] || Contains(Lower(p.title), q) || SomeTagContains(p.tags, q)
  }

  /** `filtered`: the category stage followed by the search stage. */
  function Filtered(products: seq<Product>, active: string, query: string): (r: seq<Product>)
    ensures |r| <= |products|
    ensures forall i :: 0 <= i < |r| ==> InCategory(r[i], active) && MatchesQuery(r[i], SearchKey(query))
  {
    var q := SearchKey(query);
    Filter(Filter(products, p => InCategory(p, active)), p => MatchesQuery(p, q))
  }

  /** The two stages keep, in order, exactly the products passing both tests. */
  lemma FilteredSpec(products: seq<Product>, active: string, query: string)
    ensures IsSubsequence(Filtered(products, active, query), products)
    ensures forall p :: p in Filtered(products, active, query) <==>
      p in products && InCategory(p, active) && MatchesQuery(p, SearchKey(query))
  {
    var q := SearchKey(query);
    FilterFilter(products, p => InCategory(p, active), p => MatchesQuery(p, q));
    var both := (p: Product) => InCategory(p, active) && MatchesQuery(p, q);
    var r := Filter(products, both);
    forall p | p in products && InCategory(p, active) && MatchesQuery(p, q)
      ensures p in r
    {
      var i :| 0 <= i < |products| && products[i] == p;
      assert both(products[i]);
    }
    forall p | p in r
      ensures p in products && InCategory(p, active) && MatchesQuery(p, q)
    {
      var i :| 0 <= i < |r| && r[i] == p;
      assert both(r[i]);
    }
  }

  /** The filter keeps every copy of a product that passes both stages, and none of one that fails. */
  lemma FilteredCounts(products: seq<Product>, active: string, query: string, p: Product)
    ensures multiset(Filtered(products, active, query))[p] ==
      (if InCategory(p, active) && MatchesQuery(p, SearchKey(query)) then multiset(products)[p] else 0)
  {
    var q := SearchKey(query);
    var cat := (p: Product) => InCategory(p, active);
    var mat := (p: Product) => MatchesQuery(p, q);
    FilterCount(products, cat, p);
    FilterCount(Filter(products, cat), mat, p);
  }

  /** Under `'All'` with a blank query nothing is filtered out. */
  lemma FilteredAllBlank(products: seq<Product>, query: string)
    requires Trim(query) == []
    ensures Filtered(products, AllTypes, query) == products
  {
    FilterAll(products, p => InCategory(p, AllTypes));
    FilterAll(products, p => MatchesQuery(p, SearchKey(query)));
  }

  /** What the grid area shows. */
  datatype View = NoProducts | NoMatches | Grid(items: seq<Product>)

  /** The grid area: no products, else no matches, else the filtered products. */
  function Render(products: seq<Product>, active: string, query: string): (v: View)
    ensures v == NoProducts <==> products == []
    ensures v == NoMatches <==> products != [] && Filtered(products, active, query) == []
    ensures v.Grid? ==> v.items == Filtered(products, active, query) && v.items != []
  {
    if products == [] then NoProducts
    else
      var filtered := Filtered(products, active, query);
      if filtered == [] then NoMatches else Grid(filtered)
  }

  /** Once the stale-category reset has run, a blank query always shows the grid:
      "no matches" can then only come from the search. */
  lemma SettledBlankQueryShowsGrid(products: seq<Product>, active: string, query: string)
    requires products != [] && Trim(query) == []
    ensures Render(products, ReconcileActive(active, Types(products)), query).Grid?
  {
    var settled := ReconcileActive(active, Types(products));
    var p := products[0];
    if settled != AllTypes {
      var i :| 0 <= i < |products| && products[i].productType == settled;
      p := products[i];
    }
    assert InCategory(p, settled);
    assert MatchesQuery(p, SearchKey(query));
    FilteredSpec(products, settled, query);
    assert p in Filtered(products, settled, query);
  }
}
