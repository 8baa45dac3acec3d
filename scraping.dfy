/** `CeneoSummaryPage` of model/modules/scraping.py: the same summary-page
    steps as summaries.py, but the product set is a class attribute, one set
    object shared by every instance, so names read from earlier pages stay in
    it. The class-level `baskets` dict is never changed: `_make_baskets`
    binds a new dict to the instance before anything is added. */
module Scraping {
  import opened Common
  import opened Dicts
  import opened Parts
  import opened Baskets
  import opened Tags
  import opened Pages

  /** The class attribute `products = set()`, in insertion order. */
  class SharedProducts {
    var products: seq<string>

    constructor ()
      ensures products == []
    {
      products := [];
    }
  }

  class ScrapingPage {
    /** The class, through which every instance reaches the same set. */
    const shared: SharedProducts
    var page: Option<seq<Tag>>
    var lookup: Option<Lookup>
    var baskets: Dict<string, Basket>

    ghost predicate Valid()
      reads this, shared
    {
      Distinct(shared.products) && baskets.Valid() && Separate(baskets)
      && (lookup.Some? ==> lookup.value.Valid())
    }

    /** `__init__` only sets the URL: the instance sees the class's
        products and (empty) baskets. */
    constructor (shared: SharedProducts)
      requires Distinct(shared.products)
      ensures this.shared == shared && Valid()
      ensures page == None && lookup == None && baskets == Empty()
    {
      this.shared := shared;
      page := None;
      lookup := None;
      baskets := Empty();
    }

    /** `parse_page`: only a successful fetch sets the page. */
    method ParsePage(fetched: Option<seq<Tag>>)
      requires Valid()
      modifies this
      ensures Valid()
      ensures page == (if fetched.Some? then fetched else old(page))
      ensures lookup == old(lookup) && baskets == old(baskets)
    {
      if fetched.Some? {
        page := fetched;
      }
    }

    /** `_read_products`: adds to the SHARED set, keeping the names of
        earlier pages. */
    method ReadProducts() returns (error: Option<Error>)
      requires Valid()
      modifies shared
      ensures Valid()
      ensures page.None? ==> error == Some(AttributeError) && shared.products == old(shared.products)
      ensures page.Some? ==>
        Collected(shared.products, error) == AddProducts(old(shared.products), page.value)
    {
      if page.None? {
        return Some(AttributeError);
      }
      shared.products, error := Pages.ReadProducts(shared.products, page.value);
    }

    /** `_make_baskets`: rebinds the instance's baskets to a new dict of new,
        empty baskets, one per distinct class of the cells without an
        `input`. */
    method MakeBaskets() returns (error: Option<Error>)
      requires Valid()
      modifies this
      ensures Valid()
      ensures page == old(page) && lookup == old(lookup)
      ensures page.None? ==> error == Some(AttributeError) && baskets == old(baskets)
      ensures page.Some? ==> (error == None && baskets.keys == BasketNames(page.value)
        && View(baskets) == EmptyView(baskets.keys)
        && forall k :: k in baskets.entries ==> fresh(baskets.entries[k]) && baskets.entries[k].name == k)
    {
      if page.None? {
        return Some(AttributeError);
      }
      baskets := Pages.MakeBaskets(page.value);
      assert View(baskets) == EmptyView(baskets.keys);
      error := None;
    }

    /** `_slice_product_basket_tags`: chunks of the size of the SHARED set. */
    method SliceProductBasketTags() returns (error: Option<Error>)
      requires Valid()
      modifies this
      ensures Valid()
      ensures page == old(page) && baskets == old(baskets)
      ensures page.None? ==> error == Some(AttributeError) && lookup == old(lookup)
      ensures page.Some? && SliceSpec(page.value, shared.products).Err? ==>
        error == Some(SliceSpec(page.value, shared.products).error) && lookup == old(lookup)
      ensures page.Some? && SliceSpec(page.value, shared.products).Ok? ==>
        error == None && lookup == Some(SliceSpec(page.value, shared.products).value)
    {
      if page.None? {
        return Some(AttributeError);
      }
      var r := SliceTags(page.value, shared.products);
      if r.Err? {
        return Some(r.error);
      }
      lookup := Some(r.value);
      error := None;
    }

    /** `fill_baskets`: reads products, slices, makes baskets and fills them,
        in that order, stopping at the first exception. */
    method FillBaskets() returns (error: Option<Error>)
      requires Valid()
      modifies this, shared
      ensures Valid() && page == old(page)
      ensures page.None? ==>
        (error == Some(AttributeError) && shared.products == old(shared.products)
         && lookup == old(lookup) && baskets == old(baskets))
      ensures page.Some? ==> (shared.products == Pipeline(old(shared.products), page.value).products
                             && error == Pipeline(old(shared.products), page.value).error)
      ensures page.Some? && Pipeline(old(shared.products), page.value).lookup.None? ==>
        lookup == old(lookup) && baskets == old(baskets)
      ensures page.Some? && Pipeline(old(shared.products), page.value).lookup.Some? ==>
        (lookup == Pipeline(old(shared.products), page.value).lookup
         && Some(baskets.keys) == Pipeline(old(shared.products), page.value).names
         && View(baskets) == Pipeline(old(shared.products), page.value).view && NamedByKey(baskets))
    {
      error := ReadProducts();
      if error.Some? {
        return;
      }
      error := SliceProductBasketTags();
      if error.Some? {
        return;
      }
      error := MakeBaskets();
      error := FillFromLookup(baskets, lookup.value);
    }
  }

  /** Two instances over one class read two pages in turn: the second
      starts from the products the first left in the shared set. */
  method FillTwoPages(shared: SharedProducts, first: seq<Tag>, second: seq<Tag>)
    returns (a: ScrapingPage, b: ScrapingPage, errorA: Option<Error>, errorB: Option<Error>)
    requires Distinct(shared.products)
    modifies shared
    ensures errorA == Pipeline(old(shared.products), first).error
    ensures errorB == Pipeline(Pipeline(old(shared.products), first).products, second).error
    ensures shared.products == Pipeline(Pipeline(old(shared.products), first).products, second).products
  {
    a := new ScrapingPage(shared);
    a.ParsePage(Some(first));
    errorA := a.FillBaskets();
    b := new ScrapingPage(shared);
    b.ParsePage(Some(second));
    errorB := b.FillBaskets();
  }

  /** A distinct sequence has as many elements as it has values. */
  lemma {:induction false} DistinctCard<T>(s: seq<T>)
    requires Distinct(s)
    ensures |set x | x in s| == |s|
  {
    if s != [] {
      var init := s[..|s| - 1];
      DistinctCard(init);
      assert (set x | x in s) == (set x | x in init) + {s[|s| - 1]};
      assert s[|s| - 1] !in init;
    }
  }

  /** A distinct sequence whose values all occur in another distinct
      sequence, which has one value more, is shorter than it. */
  lemma DistinctShorter<T>(a: seq<T>, b: seq<T>, x: T)
    requires Distinct(a) && Distinct(b)
    requires forall y :: y in a ==> y in b
    requires x in b && x !in a
    ensures |a| < |b|
  {
    var sa, sb := set y | y in a, set y | y in b;
    DistinctCard(a);
    DistinctCard(b);
    var sx := sa + {x};
    assert |sx| == |sa| + 1;
    assert sb == sx + (sb - sx);
    assert sx * (sb - sx) == {};
  }

  /** A name left in the shared set by an earlier page, which this page does
      not show, makes the chunks of this page longer than a fresh set would. */
  lemma LeakWidensChunks(earlier: seq<string>, tds: seq<Tag>, x: string)
    requires Distinct(earlier) && x in earlier
    requires forall i :: 0 <= i < |tds| && tds[i].hasInput ==> tds[i].imgAlt != Some(x)
    requires AddProducts([], tds).error == None
    ensures AddProducts(earlier, tds).error == None
    ensures |AddProducts(earlier, tds).products| > |AddProducts([], tds).products|
  {
    AddProductsExact(earlier, tds);
    AddProductsExact([], tds);
    var leaked, clean := AddProducts(earlier, tds).products, AddProducts([], tds).products;
    assert x in leaked by {
      assert leaked[..|earlier|] == earlier;
    }
    DistinctShorter(clean, leaked, x);
  }

  /** Every product a fillable lookup walks has offer cells. */
  lemma {:induction false} FillableHasCells(view: map<string, seq<Part>>, lookup: Lookup, keys: seq<string>, p: string)
    requires forall q :: q in keys ==> q in lookup.entries
    requires LookupFillable(view, lookup, keys) && p in keys
    ensures lookup.entries[p].Some?
  {
    var init := keys[..|keys| - 1];
    if p != keys[|keys| - 1] {
      assert p in init by {
        assert keys == init + [keys[|keys| - 1]];
      }
      FillableHasCells(view, lookup, init, p);
    }
  }

  /** A product that is the name of no cell heads no chunk, so it keeps
      `None` in a lookup sliced from those cells. */
  lemma UnnamedKeepsNone(products: seq<string>, tds: seq<Tag>, x: string)
    requires Distinct(products) && x in products
    requires forall i :: 0 <= i < |tds| ==> tds[i].imgAlt != Some(x)
    requires SliceSpec(tds, products).Ok?
    ensures x in SliceSpec(tds, products).value.entries
    ensures SliceSpec(tds, products).value.entries[x] == None
  {
    var n := |products|;
    var cs := Chunks(tds, n);
    forall i | 0 <= i < |cs| ensures HeadName(cs[i]) != Some(x) {
      ChunkNotHeadedBy(tds, n, i, x);
    }
    LookupUnheaded(products, cs, x);
  }

  /** A chunk starts with one of the cells, so it is not headed by a name
      no cell has. */
  lemma {:induction false} ChunkNotHeadedBy(tds: seq<Tag>, n: nat, i: nat, x: string)
    requires n > 0 && i < |Chunks(tds, n)|
    requires forall j :: 0 <= j < |tds| ==> tds[j].imgAlt != Some(x)
    ensures HeadName(Chunks(tds, n)[i]) != Some(x)
    decreases |tds|
  {
    if |tds| <= n {
      assert Chunks(tds, n)[i][0] == tds[0];
    } else if i == 0 {
      assert Chunks(tds, n)[0][0] == tds[0];
    } else {
      var rest := tds[n..];
      assert Chunks(tds, n)[i] == Chunks(rest, n)[i - 1];
      forall j | 0 <= j < |rest| ensures rest[j].imgAlt != Some(x) {
        assert rest[j] == tds[j + n];
      }
      ChunkNotHeadedBy(rest, n, i - 1, x);
    }
  }

  /** A name left in the shared set by an earlier page, which names no cell
      of this page, keeps `None` in the lookup, so `fill_baskets` on this
      page always raises. */
  lemma LeakedProductBreaksFill(earlier: seq<string>, tds: seq<Tag>, x: string)
    requires Distinct(earlier) && x in earlier
    requires forall i :: 0 <= i < |tds| ==> tds[i].imgAlt != Some(x)
    ensures Pipeline(earlier, tds).error.Some?
  {
    var c := AddProducts(earlier, tds);
    if c.error == None && SliceSpec(tds, c.products).Ok? {
      var lookup := SliceSpec(tds, c.products).value;
      assert x in c.products by {
        assert c.products[..|earlier|] == earlier;
      }
      UnnamedKeepsNone(c.products, tds, x);
      var view := EmptyView(BasketNames(tds));
      FillLookupRoutes(view, lookup, lookup.keys);
      assert Pipeline(earlier, tds).error == FillLookup(view, lookup, lookup.keys).error;
      if LookupFillable(view, lookup, lookup.keys) {
        FillableHasCells(view, lookup, lookup.keys, x);
      }
    }
  }
}
