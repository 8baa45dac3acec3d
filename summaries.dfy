/** `CeneoSummaryPage` of model/modules/summaries.py: a summary page read in
    steps that each set a field (products, lookup, baskets), run in order by
    `make`. */
module Summaries {
  import opened Common
  import opened Dicts
  import opened Parts
  import opened Baskets
  import opened Tags
  import opened Pages

  class SummaryPage {
    /** The cells of the last successfully fetched page; None before any. */
    var page: Option<seq<Tag>>
    /** The `products` set, in insertion order. */
    var products: seq<string>
    /** `product_basket_tags_lookup`; None until slicing has succeeded. */
    var lookup: Option<Lookup>
    var baskets: Dict<string, Basket>

    ghost predicate Valid()
      reads this
    {
      Distinct(products) && baskets.Valid() && Separate(baskets)
      && (lookup.Some? ==> lookup.value.Valid())
    }

    /** `__init__` after the URL check: no baskets, no products. */
    constructor ()
      ensures Valid()
      ensures page == None && products == [] && lookup == None && baskets == Empty()
    {
      page := None;
      products := [];
      lookup := None;
      baskets := Empty();
    }

    /** `_parse_page`: only a successful fetch replaces the page. */
    method ParsePage(fetched: Option<seq<Tag>>)
      requires Valid()
      modifies this
      ensures Valid()
      ensures page == (if fetched.Some? then fetched else old(page))
      ensures products == old(products) && lookup == old(lookup) && baskets == old(baskets)
    {
      if fetched.Some? {
        page := fetched;
      }
    }

    /** `_parse_products`: adds the alt of every product cell to the set,
        which keeps what it already held; the names added before a failing
        cell stay added. Without a page it is an AttributeError. */
    method ParseProducts() returns (error: Option<Error>)
      requires Valid()
      modifies this
      ensures Valid()
      ensures page == old(page) && lookup == old(lookup) && baskets == old(baskets)
      ensures page.None? ==> error == Some(AttributeError) && products == old(products)
      ensures page.Some? ==> Collected(products, error) == AddProducts(old(products), page.value)
    {
      if page.None? {
        return Some(AttributeError);
      }
      products, error := ReadProducts(products, page.value);
    }

    /** `_slice_product_basket_tags`: the lookup is set only when slicing
        succeeds. */
    method SliceProductBasketTags() returns (error: Option<Error>)
      requires Valid()
      modifies this
      ensures Valid()
      ensures page == old(page) && products == old(products) && baskets == old(baskets)
      ensures page.None? ==> error == Some(AttributeError) && lookup == old(lookup)
      ensures page.Some? && SliceSpec(page.value, products).Err? ==>
        error == Some(SliceSpec(page.value, products).error) && lookup == old(lookup)
      ensures page.Some? && SliceSpec(page.value, products).Ok? ==>
        error == None && lookup == Some(SliceSpec(page.value, products).value)
    {
      if page.None? {
        return Some(AttributeError);
      }
      var r := SliceTags(page.value, products);
      if r.Err? {
        return Some(r.error);
      }
      lookup := Some(r.value);
      error := None;
    }

    /** `_make_baskets`: a new dict of new, empty baskets, one per distinct
        class of the cells without an `input`. */
    method MakeBaskets() returns (error: Option<Error>)
      requires Valid()
      modifies this
      ensures Valid()
      ensures page == old(page) && products == old(products) && lookup == old(lookup)
      ensures page.None? ==> error == Some(AttributeError) && baskets == old(baskets)
      ensures page.Some? ==> (error == None && baskets.keys == BasketNames(page.value)
        && View(baskets) == EmptyView(baskets.keys)
        && forall k :: k in baskets.entries ==> fresh(baskets.entries[k]) && baskets.entries[k].name == k)
    {
      if page.None? {
        return Some(AttributeError);
      }
      baskets := Pages.MakeBaskets(page.value);
      assert View(baskets) == EmptyView(baskets.keys);
      error := None;
    }

    /** `_fill_baskets`: every product's offer cells, in lookup order. A
        lookup never set is an AttributeError. */
    method FillBaskets() returns (error: Option<Error>)
      requires Valid()
      modifies baskets.entries.Values
      ensures forall k :: k in baskets.entries ==> baskets.entries[k].name == old(baskets.entries[k].name)
      ensures lookup.None? ==> error == Some(AttributeError) && View(baskets) == old(View(baskets))
      ensures lookup.Some? ==>
        Filled(View(baskets), error) == FillLookup(old(View(baskets)), lookup.value, lookup.value.keys)
    {
      if lookup.None? {
        return Some(AttributeError);
      }
      error := FillFromLookup(baskets, lookup.value);
    }

    /** `make` up to the result table: fetch, products, slicing, baskets and
        filling, stopping at the first exception. */
    method Make(fetched: Option<seq<Tag>>) returns (error: Option<Error>)
      requires Valid()
      modifies this
      ensures Valid()
      ensures page == (if fetched.Some? then fetched else old(page))
      ensures page.None? ==>
        (error == Some(AttributeError) && products == old(products) && lookup == old(lookup) && baskets == old(baskets))
      ensures page.Some? ==> (products == Pipeline(old(products), page.value).products
                             && error == Pipeline(old(products), page.value).error)
      ensures page.Some? && Pipeline(old(products), page.value).lookup.None? ==>
        lookup == old(lookup) && baskets == old(baskets)
      ensures page.Some? && Pipeline(old(products), page.value).lookup.Some? ==>
        (lookup == Pipeline(old(products), page.value).lookup
         && Some(baskets.keys) == Pipeline(old(products), page.value).names
         && View(baskets) == Pipeline(old(products), page.value).view && NamedByKey(baskets))
    {
      ParsePage(fetched);
      error := ParseProducts();
      if error.Some? {
        return;
      }
      error := SliceProductBasketTags();
      if error.Some? {
        return;
      }
      error := MakeBaskets();
      error := FillBaskets();
    }
  }
}
