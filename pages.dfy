/** The summary-page logic that model/modules/summaries.py,
    model/modules/scraping.py and model/modules/page_readers.py each carry a
    copy of: collecting product names, cutting the `td` cells into one chunk
    per product, making one empty basket per shop column and routing each
    offer cell's part into its basket. */
module Pages {
  import opened Common
  import opened Dicts
  import opened Parts
  import opened Baskets
  import opened Tags

  // ---------------------------------------------------------------- products

  /** The product names collected so far (a Python set, kept here in
      insertion order) and the exception that stopped the scan, if any. */
  datatype Collected = Collected(products: seq<string>, error: Option<Error>)

  /** The loop of `_parse_products`: every cell holding an `input` adds its
      `img` alt to the set; a product cell without an `img` raises TypeError
      and ends the scan with the names added so far. */
  function AddProducts(products: seq<string>, tds: seq<Tag>): (c: Collected)
    requires Distinct(products)
    ensures Distinct(c.products)
    ensures |products| <= |c.products| && c.products[..|products|] == products
  {
    if tds == [] then Collected(products, None)
    else
      var c := AddProducts(products, tds[..|tds| - 1]);
      var t := tds[|tds| - 1];
      if c.error.Some? || !t.hasInput then c
      else if t.imgAlt.None? then Collected(c.products, Some(TypeError))
      else Collected(AddToSet(c.products, t.imgAlt.value), None)
  }

  /** With no failure, the products are exactly the earlier ones plus the alt
      of every product cell; a failure happens iff some product cell has no
      `img`. */
  lemma AddProductsExact(products: seq<string>, tds: seq<Tag>)
    requires Distinct(products)
    ensures AddProducts(products, tds).error == None <==>
      forall i :: 0 <= i < |tds| && tds[i].hasInput ==> tds[i].imgAlt.Some?
    ensures AddProducts(products, tds).error == None ==>
      forall x :: x in AddProducts(products, tds).products <==>
        x in products || exists i :: 0 <= i < |tds| && tds[i].hasInput && tds[i].imgAlt == Some(x)
  {
    AddProductsFails(products, tds);
    AddProductsMembers(products, tds);
  }

  /** The scan fails iff some product cell has no `img`. */
  lemma {:induction false} AddProductsFails(products: seq<string>, tds: seq<Tag>)
    requires Distinct(products)
    ensures AddProducts(products, tds).error == None <==>
      forall i :: 0 <= i < |tds| && tds[i].hasInput ==> tds[i].imgAlt.Some?
  {
    if tds != [] {
      var n := |tds|;
      var init := tds[..n - 1];
      AddProductsFails(products, init);
      assert forall i :: 0 <= i < n - 1 ==> tds[i] == init[i];
    }
  }

  /** Without a failure, the products are the earlier ones plus the alt of
      every product cell. */
  lemma {:induction false} AddProductsMembers(products: seq<string>, tds: seq<Tag>)
    requires Distinct(products)
    ensures AddProducts(products, tds).error == None ==>
      forall x :: x in AddProducts(products, tds).products <==>
        x in products || exists i :: 0 <= i < |tds| && tds[i].hasInput && tds[i].imgAlt == Some(x)
  {
    if tds != [] {
      var n := |tds|;
      var init := tds[..n - 1];
      var c := AddProducts(products, init);
      var grown := AddProducts(products, tds).products;
      if AddProducts(products, tds).error == None {
        AddProductsMembers(products, init);
        forall x | x in grown
          ensures x in products || exists i :: 0 <= i < n && tds[i].hasInput && tds[i].imgAlt == Some(x)
        {
          if x !in c.products {
            assert tds[n - 1].imgAlt == Some(x);
          } else if x !in products {
            var i :| 0 <= i < n - 1 && init[i].hasInput && init[i].imgAlt == Some(x);
            assert tds[i] == init[i];
          }
        }
        forall x | x in products || exists i :: 0 <= i < n && tds[i].hasInput && tds[i].imgAlt == Some(x)
          ensures x in grown
        {
          if x !in products {
            var i :| 0 <= i < n && tds[i].hasInput && tds[i].imgAlt == Some(x);
            if i < n - 1 {
              assert init[i] == tds[i];
            }
          }
        }
      }
    }
  }

  /** `_parse_products` / `_read_products` on a page's cells: returns the
      grown set and the exception, if one stopped the loop. */
  method ReadProducts(products: seq<string>, tds: seq<Tag>) returns (grown: seq<string>, error: Option<Error>)
    requires Distinct(products)
    ensures Collected(grown, error) == AddProducts(products, tds)
  {
    grown := products;
    for i := 0 to |tds|
      invariant AddProducts(products, tds[..i]) == Collected(grown, None)
    {
      assert tds[..i + 1][..i] == tds[..i];
      var t := tds[i];
      if t.hasInput {
        if t.imgAlt.None? {
          assert tds[..i + 1] == tds[..i] + [t];
          AddProductsStopped(products, tds, i + 1);
          return grown, Some(TypeError);
        }
        grown := AddToSet(grown, t.imgAlt.value);
      }
    }
    assert tds[..|tds|] == tds;
    error := None;
  }

  /** Once the scan has failed, later cells change nothing. */
  lemma {:induction false} AddProductsStopped(products: seq<string>, tds: seq<Tag>, k: nat)
    requires Distinct(products)
    requires k <= |tds| && AddProducts(products, tds[..k]).error.Some?
    ensures AddProducts(products, tds) == AddProducts(products, tds[..k])
    decreases |tds| - k
  {
    if k < |tds| {
      assert tds[..k + 1][..k] == tds[..k];
      AddProductsStopped(products, tds, k + 1);
    } else {
      assert tds[..k] == tds;
    }
  }

  // ----------------------------------------------------------------- baskets

  /** The distinct first classes of the cells without an `input`, in order of
      first appearance (the iteration order of the `basket_names` set). */
  function BasketNames(tds: seq<Tag>): (names: seq<string>)
    ensures Distinct(names)
    ensures forall k :: k in names <==> exists i :: 0 <= i < |tds| && !tds[i].hasInput && tds[i].cls == k
  {
    if tds == [] then []
    else
      var init := tds[..|tds| - 1];
      var t := tds[|tds| - 1];
      var names := BasketNames(init);
      assert forall i :: 0 <= i < |init| ==> init[i] == tds[i];
      if t.hasInput then names else AddToSet(names, t.cls)
  }

  /** Distinct keys hold distinct Basket objects. */
  ghost predicate Separate(d: Dict<string, Basket>)
  {
    forall k, k' :: k in d.entries && k' in d.entries && k != k' ==> d.entries[k] != d.entries[k']
  }

  /** The parts of every basket, by name. */
  ghost function View(d: Dict<string, Basket>): map<string, seq<Part>>
    reads d.entries.Values
  {
    map k | k in d.entries :: d.entries[k].parts
  }

  /** Every basket carries its key as its name. */
  ghost predicate NamedByKey(d: Dict<string, Basket>)
    reads d.entries.Values
  {
    forall k :: k in d.entries ==> d.entries[k].name == k
  }

  /** `{name: Basket(name=name) for name in basket_names}`: one new, empty
      basket per distinct class of the cells without an `input`. */
  method MakeBaskets(tds: seq<Tag>) returns (baskets: Dict<string, Basket>)
    ensures baskets.Valid() && Separate(baskets)
    ensures baskets.keys == BasketNames(tds)
    ensures forall k :: k in baskets.entries ==>
      fresh(baskets.entries[k]) && baskets.entries[k].name == k && baskets.entries[k].parts == []
  {
    var names := CollectBasketNames(tds);
    baskets := NewBaskets(names);
  }

  /** The `basket_names` set comprehension. */
  method CollectBasketNames(tds: seq<Tag>) returns (names: seq<string>)
    ensures names == BasketNames(tds)
  {
    names := [];
    for i := 0 to |tds|
      invariant names == BasketNames(tds[..i])
    {
      assert tds[..i + 1][..i] == tds[..i];
      if !tds[i].hasInput {
        names := AddToSet(names, tds[i].cls);
      }
    }
    assert tds[..|tds|] == tds;
  }

  /** The dict comprehension: one new, empty basket per name, in order. */
  method NewBaskets(names: seq<string>) returns (baskets: Dict<string, Basket>)
    requires Distinct(names)
    ensures baskets.Valid() && Separate(baskets)
    ensures baskets.keys == names
    ensures forall k :: k in baskets.entries ==>
      fresh(baskets.entries[k]) && baskets.entries[k].name == k && baskets.entries[k].parts == []
  {
    baskets := Empty();
    for i := 0 to |names|
      invariant baskets.Valid() && Separate(baskets)
      invariant baskets.keys == names[..i]
      invariant forall k :: k in baskets.entries ==>
        fresh(baskets.entries[k]) && baskets.entries[k].name == k && baskets.entries[k].parts == []
    {
      var b := new Basket(names[i]);
      assert names[i] !in names[..i];
      baskets := baskets.Put(names[i], b);
      assert names[..i + 1] == names[..i] + [names[i]];
    }
    assert names[..|names|] == names;
  }

  /** `_read_basket_tag`: the cell's basket name and its span classes and
      texts, paired by position. */
  function ReadBasketTag(t: Tag): (r: (string, seq<string>, seq<string>))
    ensures r.0 == t.cls
    ensures |r.1| == |r.2| == |t.spans|
    ensures forall i :: 0 <= i < |t.spans| ==> Span(r.1[i], r.2[i]) == t.spans[i]
  {
    (t.cls, SpanKeys(t), SpanValues(t))
  }

  // ------------------------------------------------------------------ slicing

  /** `tags[i : i + n]` for `i` in `range(0, len(tags), n)`. */
  function Chunks(s: seq<Tag>, n: nat): (cs: seq<seq<Tag>>)
    requires n > 0
    ensures forall c :: c in cs ==> 0 < |c| <= n
    decreases |s|
  {
    if s == [] then []
    else if |s| <= n then [s]
    else [s[..n]] + Chunks(s[n..], n)
  }

  function Concat(cs: seq<seq<Tag>>): seq<Tag>
  {
    if cs == [] then [] else cs[0] + Concat(cs[1..])
  }

  /** The chunks put back together are the cells. */
  lemma {:induction false} ChunksConcat(s: seq<Tag>, n: nat)
    requires n > 0
    ensures Concat(Chunks(s, n)) == s
    decreases |s|
  {
    if |s| > n {
      ChunksConcat(s[n..], n);
      assert s == s[..n] + s[n..];
    }
  }

  /** Chunk `k` starts at cell `k * n` and is `n` long, or what remains. */
  lemma {:induction false} ChunkAt(s: seq<Tag>, n: nat, k: nat)
    requires n > 0 && k < |Chunks(s, n)|
    ensures k * n < |s|
    ensures Chunks(s, n)[k] == s[k * n .. if k * n + n < |s| then k * n + n else |s|]
    decreases |s|
  {
    if k > 0 {
      var rest := s[n..];
      assert Chunks(s, n) == [s[..n]] + Chunks(rest, n);
      ChunkAt(rest, n, k - 1);
      var a := (k - 1) * n;
      assert a + n == k * n;
      var e := if a + n < |rest| then a + n else |rest|;
      assert Chunks(s, n)[k] == rest[a..e];
      SliceOfDrop(s, n, a, e);
    }
  }

  /** A slice of `s[n..]` is the slice of `s` shifted by `n`. */
  lemma SliceOfDrop<T>(s: seq<T>, n: nat, a: nat, e: nat)
    requires n <= |s| && a <= e <= |s| - n
    ensures s[n..][a..e] == s[a + n .. e + n]
  {
  }

  /** The lookup from product name to the offer cells of its chunk. */
  type Lookup = Dict<string, Option<seq<Tag>>>

  /** The name in a chunk's head cell, if it has an `img`. */
  function HeadName(c: seq<Tag>): Option<string>
  {
    if c == [] then None else c[0].imgAlt
  }

  /** The loop of `_slice_product_basket_tags` over the first chunks: start
      from `dict.fromkeys(products)` and let each chunk's head cell name the
      product whose value becomes the rest of the chunk (a later chunk with
      the same head overwrites); a head without an `img` raises TypeError. */
  function LookupOf(products: seq<string>, cs: seq<seq<Tag>>): (r: Result<Lookup>)
    requires Distinct(products)
    ensures r.Ok? ==> r.value.Valid()
    ensures r.Ok? ==> forall k :: k in products ==> k in r.value.entries
  {
    if cs == [] then Ok(FromKeys(products, None))
    else
      var c := cs[|cs| - 1];
      match LookupOf(products, cs[..|cs| - 1])
      case Err(e) => Err(e)
      case Ok(d) =>
        if c == [] then Err(IndexError)
        else if c[0].imgAlt.None? then Err(TypeError)
        else Ok(d.Put(c[0].imgAlt.value, Some(c[1..])))
  }

  /** `_slice_product_basket_tags` as a value: `range(0, len(tags), 0)`
      raises ValueError when there are no products. */
  function SliceSpec(tds: seq<Tag>, products: seq<string>): (r: Result<Lookup>)
    requires Distinct(products)
    ensures r.Ok? ==> r.value.Valid()
  {
    if |products| == 0 then Err(ValueError) else LookupOf(products, Chunks(tds, |products|))
  }

  /** `_slice_product_basket_tags`: walks the cells in steps of the number of
      products. */
  method SliceTags(tds: seq<Tag>, products: seq<string>) returns (r: Result<Lookup>)
    requires Distinct(products)
    ensures r == SliceSpec(tds, products)
  {
    var n := |products|;
    if n == 0 {
      return Err(ValueError);
    }
    var lookup := FromKeys(products, None);
    ghost var done: seq<seq<Tag>> := [];
    var i := 0;
    while i < |tds|
      invariant i <= |tds|
      invariant Chunks(tds, n) == done + Chunks(tds[i..], n)
      invariant LookupOf(products, done) == Ok(lookup)
      decreases |tds| - i
    {
      var j := if i + n < |tds| then i + n else |tds|;
      var chunk := tds[i..j];
      ChunksStep(tds, n, i, j);
      if chunk[0].imgAlt.None? {
        LookupStopped(products, done, [chunk] + Chunks(tds[j..], n));
        assert done + ([chunk] + Chunks(tds[j..], n)) == Chunks(tds, n);
        return Err(TypeError);
      }
      LookupStep(products, done, chunk);
      AppendAssoc(done, [chunk], Chunks(tds[j..], n));
      lookup := lookup.Put(chunk[0].imgAlt.value, Some(chunk[1..]));
      done := done + [chunk];
      i := j;
    }
    assert tds[i..] == [];
    assert done == Chunks(tds, n);
    r := Ok(lookup);
  }

  /** The next chunk of the cells from `i` on ends at `j`. */
  lemma ChunksStep(tds: seq<Tag>, n: nat, i: nat, j: nat)
    requires n > 0 && i < |tds| && j == (if i + n < |tds| then i + n else |tds|)
    ensures Chunks(tds[i..], n) == [tds[i..j]] + Chunks(tds[j..], n)
  {
    if |tds[i..]| > n {
      assert tds[i..][..n] == tds[i..j];
      assert tds[i..][n..] == tds[j..];
    } else {
      assert tds[i..] == tds[i..j];
      assert tds[j..] == [];
    }
  }

  /** One more chunk with a named head adds or overwrites that name. */
  lemma LookupStep(products: seq<string>, done: seq<seq<Tag>>, chunk: seq<Tag>)
    requires Distinct(products) && LookupOf(products, done).Ok?
    requires chunk != [] && chunk[0].imgAlt.Some?
    ensures LookupOf(products, done + [chunk])
      == Ok(LookupOf(products, done).value.Put(chunk[0].imgAlt.value, Some(chunk[1..])))
  {
    assert (done + [chunk])[..|done|] == done;
  }

  /** A head without an `img` fails the whole slicing. */
  lemma {:induction false} LookupStopped(products: seq<string>, done: seq<seq<Tag>>, rest: seq<seq<Tag>>)
    requires Distinct(products) && LookupOf(products, done).Ok?
    requires rest != [] && rest[0] != [] && rest[0][0].imgAlt.None?
    ensures LookupOf(products, done + rest) == Err(TypeError)
    decreases |rest|
  {
    var all := done + rest;
    if |rest| == 1 {
      assert all[..|all| - 1] == done;
    } else {
      assert all[..|all| - 1] == done + rest[..|rest| - 1];
      LookupStopped(products, done, rest[..|rest| - 1]);
    }
  }

  /** The lookup's keys: the products and the names that head a chunk. */
  lemma {:induction false} LookupKeys(products: seq<string>, cs: seq<seq<Tag>>, name: string)
    requires Distinct(products) && LookupOf(products, cs).Ok?
    ensures name in LookupOf(products, cs).value.entries <==>
      name in products || exists i :: 0 <= i < |cs| && HeadName(cs[i]) == Some(name)
  {
    if cs != [] {
      var init := cs[..|cs| - 1];
      LookupKeys(products, init, name);
      assert forall i :: 0 <= i < |init| ==> init[i] == cs[i];
    }
  }

  /** A product that heads no chunk keeps the `None` of `dict.fromkeys`. */
  lemma {:induction false} LookupUnheaded(products: seq<string>, cs: seq<seq<Tag>>, name: string)
    requires Distinct(products) && LookupOf(products, cs).Ok?
    requires name in products && forall i :: 0 <= i < |cs| ==> HeadName(cs[i]) != Some(name)
    ensures LookupOf(products, cs).value.entries[name] == None
  {
    if cs != [] {
      var init := cs[..|cs| - 1];
      assert forall i :: 0 <= i < |init| ==> init[i] == cs[i];
      LookupUnheaded(products, init, name);
    }
  }

  /** A name that heads a chunk maps to the rest of the LAST chunk it heads. */
  lemma {:induction false} LookupLastChunkWins(products: seq<string>, cs: seq<seq<Tag>>, j: nat)
    requires Distinct(products) && LookupOf(products, cs).Ok?
    requires j < |cs| && HeadName(cs[j]).Some?
    requires forall l :: j < l < |cs| ==> HeadName(cs[l]) != HeadName(cs[j])
    ensures HeadName(cs[j]).value in LookupOf(products, cs).value.entries
    ensures LookupOf(products, cs).value.entries[HeadName(cs[j]).value] == Some(cs[j][1..])
  {
    var m := |cs|;
    var init := cs[..m - 1];
    var name := HeadName(cs[j]).value;
    if j < m - 1 {
      assert init[j] == cs[j];
      forall l | j < l < m - 1 ensures HeadName(init[l]) != HeadName(init[j]) {
        assert init[l] == cs[l];
      }
      LookupLastChunkWins(products, init, j);
      LookupKeepsOthers(products, cs, name);
    }
  }

  /** A last chunk headed by another name leaves the entry of `name` as it
      was. */
  lemma LookupKeepsOthers(products: seq<string>, cs: seq<seq<Tag>>, name: string)
    requires Distinct(products) && cs != [] && LookupOf(products, cs).Ok?
    requires HeadName(cs[|cs| - 1]) != Some(name)
    ensures LookupOf(products, cs[..|cs| - 1]).Ok?
    ensures name in LookupOf(products, cs[..|cs| - 1]).value.entries ==>
      name in LookupOf(products, cs).value.entries
      && LookupOf(products, cs).value.entries[name] == LookupOf(products, cs[..|cs| - 1]).value.entries[name]
  {
  }

  // ------------------------------------------------------------------ filling

  /** The parts of every basket, by name, and the exception that stopped
      the filling, if any. */
  datatype Filled = Filled(view: map<string, seq<Part>>, error: Option<Error>)

  /** One offer cell, with the product name its part gets. */
  type Offer = (Option<string>, Tag)

  /** The part an offer cell with spans yields. */
  function OfferPart(keywords: set<string>, offer: Offer): Result<Part>
  {
    PartFromSpans(keywords, offer.0, SpanKeys(offer.1), SpanValues(offer.1))
  }

  /** The loop accepts a cell: it has no spans, or it yields a part and names
      an existing basket. */
  predicate Accepts(view: map<string, seq<Part>>, keywords: set<string>, offer: Offer)
  {
    offer.1.spans != [] ==> OfferPart(keywords, offer).Ok? && offer.1.cls in view
  }

  /** Reference definition for one cell: the part it contributes to basket
      `k` (none, or the one it yields when it has spans and class `k`). */
  function RoutedOne(keywords: set<string>, offer: Offer, k: string): seq<Part>
  {
    if offer.1.spans != [] && offer.1.cls == k && OfferPart(keywords, offer).Ok?
    then [OfferPart(keywords, offer).value] else []
  }

  /** The body of the filling loops for one cell: a cell with no spans adds
      nothing; otherwise the part is built from its spans (`keywords` are the
      keyword names the `Part` call passes) and appended to the basket named
      by the cell's class, a missing basket being a KeyError. */
  function AddOffer(view: map<string, seq<Part>>, keywords: set<string>, offer: Offer): (f: Filled)
    ensures f.error.Some? ==> f.view == view
  {
    var (name, ks, vs) := ReadBasketTag(offer.1);
    if ks == [] then Filled(view, None)
    else match PartFromSpans(keywords, offer.0, ks, vs)
      case Err(e) => Filled(view, Some(e))
      case Ok(p) => if name in view then Filled(view[name := view[name] + [p]], None) else Filled(view, Some(KeyError))
  }

  /** One cell is filled in iff it is accepted, and then each basket grows by
      exactly what the cell routes to it. */
  lemma AddOfferRoutes(view: map<string, seq<Part>>, keywords: set<string>, offer: Offer)
    ensures AddOffer(view, keywords, offer).error == None <==> Accepts(view, keywords, offer)
    ensures AddOffer(view, keywords, offer).error == None ==>
      (AddOffer(view, keywords, offer).view.Keys == view.Keys
       && forall k :: k in view ==>
         AddOffer(view, keywords, offer).view[k] == view[k] + RoutedOne(keywords, offer, k))
  {
  }

  /** The filling loop over a list of offer cells, stopping at the first
      exception. */
  function FillPairs(view: map<string, seq<Part>>, keywords: set<string>, offers: seq<Offer>): (f: Filled)
  {
    if offers == [] then Filled(view, None)
    else
      var f := FillPairs(view, keywords, offers[..|offers| - 1]);
      if f.error.Some? then f else AddOffer(f.view, keywords, offers[|offers| - 1])
  }

  /** Reference definition: the parts that cells routed to basket `k`
      contribute, in cell order. */
  function Routed(keywords: set<string>, offers: seq<Offer>, k: string): seq<Part>
  {
    if offers == [] then []
    else Routed(keywords, offers[..|offers| - 1], k) + RoutedOne(keywords, offers[|offers| - 1], k)
  }

  /** Every cell is accepted. */
  predicate Fillable(view: map<string, seq<Part>>, keywords: set<string>, offers: seq<Offer>)
  {
    offers == [] ||
      (Fillable(view, keywords, offers[..|offers| - 1]) && Accepts(view, keywords, offers[|offers| - 1]))
  }

  /** `Fillable` cell by cell. */
  lemma {:induction false} FillableAll(view: map<string, seq<Part>>, keywords: set<string>, offers: seq<Offer>)
    ensures Fillable(view, keywords, offers) <==> forall i :: 0 <= i < |offers| ==> Accepts(view, keywords, offers[i])
  {
    if offers != [] {
      var init := offers[..|offers| - 1];
      FillableAll(view, keywords, init);
      assert forall i :: 0 <= i < |init| ==> init[i] == offers[i];
    }
  }

  /** The filling succeeds iff every cell is accepted, and then every basket
      ends with its earlier parts followed by exactly the parts routed to it;
      no basket is created or dropped. */
  lemma {:induction false} FillPairsRoutes(view: map<string, seq<Part>>, keywords: set<string>, offers: seq<Offer>)
    ensures FillPairs(view, keywords, offers).error == None <==> Fillable(view, keywords, offers)
    ensures FillPairs(view, keywords, offers).error == None ==>
      (FillPairs(view, keywords, offers).view.Keys == view.Keys
       && forall k :: k in view ==>
         FillPairs(view, keywords, offers).view[k] == view[k] + Routed(keywords, offers, k))
  {
    if offers != [] {
      var init := offers[..|offers| - 1];
      FillPairsRoutes(view, keywords, init);
      if FillPairs(view, keywords, init).error == None {
        FillPairsLast(view, keywords, offers);
      }
    }
  }

  /** The last cell's step of `FillPairsRoutes`, once the earlier cells have
      been filled in. */
  lemma FillPairsLast(view: map<string, seq<Part>>, keywords: set<string>, offers: seq<Offer>)
    requires offers != []
    requires FillPairs(view, keywords, offers[..|offers| - 1]).error == None
    requires Fillable(view, keywords, offers[..|offers| - 1])
    requires FillPairs(view, keywords, offers[..|offers| - 1]).view.Keys == view.Keys
    requires forall k :: k in view ==>
      FillPairs(view, keywords, offers[..|offers| - 1]).view[k] == view[k] + Routed(keywords, offers[..|offers| - 1], k)
    ensures FillPairs(view, keywords, offers).error == None <==> Fillable(view, keywords, offers)
    ensures FillPairs(view, keywords, offers).error == None ==>
      (FillPairs(view, keywords, offers).view.Keys == view.Keys
       && forall k :: k in view ==>
         FillPairs(view, keywords, offers).view[k] == view[k] + Routed(keywords, offers, k))
  {
    var init, last := offers[..|offers| - 1], offers[|offers| - 1];
    var f := FillPairs(view, keywords, init);
    assert FillPairs(view, keywords, offers) == AddOffer(f.view, keywords, last);
    AddOfferAppends(view, f.view, keywords, offers);
  }

  /** One more cell on top of baskets holding the earlier cells' parts. */
  lemma AddOfferAppends(view: map<string, seq<Part>>, filled: map<string, seq<Part>>, keywords: set<string>, offers: seq<Offer>)
    requires offers != [] && filled.Keys == view.Keys
    requires forall k :: k in view ==> filled[k] == view[k] + Routed(keywords, offers[..|offers| - 1], k)
    ensures AddOffer(filled, keywords, offers[|offers| - 1]).error == None <==> Accepts(view, keywords, offers[|offers| - 1])
    ensures AddOffer(filled, keywords, offers[|offers| - 1]).error == None ==>
      (AddOffer(filled, keywords, offers[|offers| - 1]).view.Keys == view.Keys
       && forall k :: k in view ==>
         AddOffer(filled, keywords, offers[|offers| - 1]).view[k] == view[k] + Routed(keywords, offers, k))
  {
    var last := offers[|offers| - 1];
    AddOfferRoutes(filled, keywords, last);
    var g := AddOffer(filled, keywords, last);
    assert Accepts(filled, keywords, last) == Accepts(view, keywords, last);
    if g.error == None {
      RoutedAppend(view, filled, g.view, keywords, offers);
    }
  }

  /** Baskets that held the earlier cells' parts and then got the last
      cell's part hold the parts routed by all the cells. */
  lemma RoutedAppend(view: map<string, seq<Part>>, filled: map<string, seq<Part>>, grown: map<string, seq<Part>>,
                     keywords: set<string>, offers: seq<Offer>)
    requires offers != [] && filled.Keys == view.Keys
    requires forall k :: k in view ==> filled[k] == view[k] + Routed(keywords, offers[..|offers| - 1], k)
    requires forall k :: k in filled ==> k in grown && grown[k] == filled[k] + RoutedOne(keywords, offers[|offers| - 1], k)
    ensures forall k :: k in view ==> grown[k] == view[k] + Routed(keywords, offers, k)
  {
    var init, last := offers[..|offers| - 1], offers[|offers| - 1];
    forall k | k in view ensures grown[k] == view[k] + Routed(keywords, offers, k) {
      var earlier, more := Routed(keywords, init, k), RoutedOne(keywords, last, k);
      assert Routed(keywords, offers, k) == earlier + more;
      AppendAssoc(view[k], earlier, more);
    }
  }

  /** `[(name, tag) for tag in tags]` */
  function Named(name: Option<string>, tags: seq<Tag>): (os: seq<Offer>)
    ensures |os| == |tags|
    ensures forall i :: 0 <= i < |tags| ==> os[i] == (name, tags[i])
  {
    seq(|tags|, i requires 0 <= i < |tags| => (name, tags[i]))
  }

  /** The nested loop of `_fill_baskets` over the first `keys` of the
      lookup: a product whose value is still `None` cannot be iterated
      (TypeError); otherwise its offer cells are filled in with the
      product's name. */
  function FillLookup(view: map<string, seq<Part>>, lookup: Lookup, keys: seq<string>): Filled
    requires forall k :: k in keys ==> k in lookup.entries
  {
    if keys == [] then Filled(view, None)
    else
      var product := keys[|keys| - 1];
      var f := FillLookup(view, lookup, keys[..|keys| - 1]);
      if f.error.Some? then f
      else match lookup.entries[product]
        case None => Filled(f.view, Some(TypeError))
        case Some(tags) => FillPairs(f.view, Parameters, Named(Some(product), tags))
  }

  /** `self.baskets[name].add_part(part)` on a dict of separate baskets: only
      that basket grows, by that part, and every basket keeps its name. */
  method AddToBasket(baskets: Dict<string, Basket>, name: string, part: Part)
    requires Separate(baskets) && name in baskets.entries
    modifies baskets.entries[name]
    ensures View(baskets) == old(View(baskets))[name := old(View(baskets))[name] + [part]]
    ensures forall k :: k in baskets.entries ==> baskets.entries[k].name == old(baskets.entries[k].name)
  {
    baskets.entries[name].AddPart(part);
  }

  /** The shared loop body, run on the baskets themselves. */
  method AddOfferTo(baskets: Dict<string, Basket>, keywords: set<string>, offer: Offer) returns (error: Option<Error>)
    requires Separate(baskets)
    modifies baskets.entries.Values
    ensures Filled(View(baskets), error) == AddOffer(old(View(baskets)), keywords, offer)
    ensures forall k :: k in baskets.entries ==> baskets.entries[k].name == old(baskets.entries[k].name)
  {
    var (name, ks, vs) := ReadBasketTag(offer.1);
    if ks == [] {
      return None;
    }
    var part := PartFromSpans(keywords, offer.0, ks, vs);
    if part.Err? {
      return Some(part.error);
    }
    if name !in baskets.entries {
      return Some(KeyError);
    }
    AddToBasket(baskets, name, part.value);
    error := None;
  }

  /** The loop over a list of offer cells, run on the baskets: the inner
      loop of `_fill_baskets` and the loop of `fill_baskets`. */
  method FillOffers(baskets: Dict<string, Basket>, keywords: set<string>, offers: seq<Offer>) returns (error: Option<Error>)
    requires Separate(baskets)
    modifies baskets.entries.Values
    ensures Filled(View(baskets), error) == FillPairs(old(View(baskets)), keywords, offers)
    ensures forall k :: k in baskets.entries ==> baskets.entries[k].name == old(baskets.entries[k].name)
  {
    ghost var before := View(baskets);
    for j := 0 to |offers|
      invariant FillPairs(before, keywords, offers[..j]) == Filled(View(baskets), None)
      invariant forall k :: k in baskets.entries ==> baskets.entries[k].name == old(baskets.entries[k].name)
    {
      assert offers[..j + 1][..j] == offers[..j];
      error := AddOfferTo(baskets, keywords, offers[j]);
      if error.Some? {
        FillPairsStopped(before, keywords, offers, j + 1);
        return;
      }
    }
    assert offers[..|offers|] == offers;
    error := None;
  }

  /** `_fill_baskets` / the loop of `fill_baskets`: walks the lookup in its
      key order and each product's offer cells in order. */
  method FillFromLookup(baskets: Dict<string, Basket>, lookup: Lookup) returns (error: Option<Error>)
    requires Separate(baskets) && lookup.Valid()
    modifies baskets.entries.Values
    ensures Filled(View(baskets), error) == FillLookup(old(View(baskets)), lookup, lookup.keys)
    ensures forall k :: k in baskets.entries ==> baskets.entries[k].name == old(baskets.entries[k].name)
  {
    ghost var start := View(baskets);
    for i := 0 to |lookup.keys|
      invariant FillLookup(start, lookup, lookup.keys[..i]) == Filled(View(baskets), None)
      invariant forall k :: k in baskets.entries ==> baskets.entries[k].name == old(baskets.entries[k].name)
    {
      var product := lookup.keys[i];
      assert lookup.keys[..i + 1][..i] == lookup.keys[..i];
      var tags := lookup.entries[product];
      if tags.None? {
        FillLookupStopped(start, lookup, i + 1);
        return Some(TypeError);
      }
      error := FillOffers(baskets, Parameters, Named(Some(product), tags.value));
      if error.Some? {
        FillLookupStopped(start, lookup, i + 1);
        return;
      }
    }
    assert lookup.keys[..|lookup.keys|] == lookup.keys;
    error := None;
  }

  /** Once the filling has failed, later cells change nothing. */
  lemma {:induction false} FillPairsStopped(view: map<string, seq<Part>>, keywords: set<string>, offers: seq<Offer>, k: nat)
    requires k <= |offers| && FillPairs(view, keywords, offers[..k]).error.Some?
    ensures FillPairs(view, keywords, offers) == FillPairs(view, keywords, offers[..k])
    decreases |offers| - k
  {
    if k < |offers| {
      assert offers[..k + 1][..k] == offers[..k];
      FillPairsStopped(view, keywords, offers, k + 1);
    } else {
      assert offers[..k] == offers;
    }
  }

  /** Once a product has failed, later products change nothing. */
  lemma {:induction false} FillLookupStopped(view: map<string, seq<Part>>, lookup: Lookup, k: nat)
    requires lookup.Valid()
    requires k <= |lookup.keys| && FillLookup(view, lookup, lookup.keys[..k]).error.Some?
    ensures FillLookup(view, lookup, lookup.keys) == FillLookup(view, lookup, lookup.keys[..k])
    decreases |lookup.keys| - k
  {
    if k < |lookup.keys| {
      assert lookup.keys[..k + 1][..k] == lookup.keys[..k];
      FillLookupStopped(view, lookup, k + 1);
    } else {
      assert lookup.keys[..k] == lookup.keys;
    }
  }

  /** The parts of the offer cells routed to basket `k` come from cells of
      class `k` with spans, and each is the part its cell yields. */
  lemma {:induction false} RoutedFrom(keywords: set<string>, offers: seq<Offer>, k: string, p: Part)
    requires p in Routed(keywords, offers, k)
    ensures exists o :: (o in offers && o.1.cls == k && o.1.spans != []
      && OfferPart(keywords, o) == Ok(p) && p.name == o.0)
  {
    var m := |offers|;
    var init, last := offers[..m - 1], offers[m - 1];
    if p in Routed(keywords, init, k) {
      RoutedFrom(keywords, init, k, p);
      var o :| o in init && o.1.cls == k && o.1.spans != [] && OfferPart(keywords, o) == Ok(p) && p.name == o.0;
      assert o in offers;
    } else {
      assert p in RoutedOne(keywords, last, k);
      assert last in offers;
    }
  }

  /** A basket no span-bearing cell names receives nothing. */
  lemma {:induction false} RoutedElsewhere(keywords: set<string>, offers: seq<Offer>, k: string)
    requires forall o :: o in offers && o.1.spans != [] ==> o.1.cls != k
    ensures Routed(keywords, offers, k) == []
  {
    if offers != [] {
      var init := offers[..|offers| - 1];
      assert forall o :: o in init ==> o in offers;
      RoutedElsewhere(keywords, init, k);
      assert offers[|offers| - 1] in offers;
    }
  }

  /** Whether a cell is accepted depends only on which baskets exist. */
  lemma {:induction false} FillableKeys(v1: map<string, seq<Part>>, v2: map<string, seq<Part>>, keywords: set<string>, offers: seq<Offer>)
    requires v1.Keys == v2.Keys
    ensures Fillable(v1, keywords, offers) <==> Fillable(v2, keywords, offers)
  {
    if offers != [] {
      var last := offers[|offers| - 1];
      FillableKeys(v1, v2, keywords, offers[..|offers| - 1]);
      assert last.1.cls in v1 <==> last.1.cls in v2;
    }
  }

  /** Reference definition: the parts the products `keys` of the lookup
      route to basket `k`, product after product, each named after its
      product. */
  function LookupRouted(lookup: Lookup, keys: seq<string>, k: string): seq<Part>
    requires forall p :: p in keys ==> p in lookup.entries
  {
    if keys == [] then []
    else
      var p := keys[|keys| - 1];
      LookupRouted(lookup, keys[..|keys| - 1], k)
        + (match lookup.entries[p] case None => [] case Some(tags) => Routed(Parameters, Named(Some(p), tags), k))
  }

  /** Every product's offer cells can be filled in. */
  predicate LookupFillable(view: map<string, seq<Part>>, lookup: Lookup, keys: seq<string>)
    requires forall p :: p in keys ==> p in lookup.entries
  {
    keys == [] ||
      (var p := keys[|keys| - 1];
       LookupFillable(view, lookup, keys[..|keys| - 1])
       && lookup.entries[p].Some? && Fillable(view, Parameters, Named(Some(p), lookup.entries[p].value)))
  }

  /** The nested filling succeeds iff no product is still `None` and every
      offer cell is accepted; then every basket ends with its earlier parts
      followed by exactly the parts routed to it, product by product. */
  lemma {:induction false} FillLookupRoutes(view: map<string, seq<Part>>, lookup: Lookup, keys: seq<string>)
    requires forall p :: p in keys ==> p in lookup.entries
    ensures FillLookup(view, lookup, keys).error == None <==> LookupFillable(view, lookup, keys)
    ensures FillLookup(view, lookup, keys).error == None ==>
      (FillLookup(view, lookup, keys).view.Keys == view.Keys
       && forall k :: k in view ==> FillLookup(view, lookup, keys).view[k] == view[k] + LookupRouted(lookup, keys, k))
  {
    if keys != [] {
      var n := |keys|;
      var init := keys[..n - 1];
      assert forall q :: q in init ==> q in keys;
      FillLookupRoutes(view, lookup, init);
      if FillLookup(view, lookup, init).error == None {
        FillLookupLast(view, lookup, keys);
      }
    }
  }

  /** The last product's step of `FillLookupRoutes`, once the earlier
      products have been filled in. */
  lemma FillLookupLast(view: map<string, seq<Part>>, lookup: Lookup, keys: seq<string>)
    requires keys != [] && forall p :: p in keys ==> p in lookup.entries
    requires FillLookup(view, lookup, keys[..|keys| - 1]).error == None
    requires LookupFillable(view, lookup, keys[..|keys| - 1])
    requires FillLookup(view, lookup, keys[..|keys| - 1]).view.Keys == view.Keys
    requires forall k :: k in view ==>
      FillLookup(view, lookup, keys[..|keys| - 1]).view[k] == view[k] + LookupRouted(lookup, keys[..|keys| - 1], k)
    ensures FillLookup(view, lookup, keys).error == None <==> LookupFillable(view, lookup, keys)
    ensures FillLookup(view, lookup, keys).error == None ==>
      (FillLookup(view, lookup, keys).view.Keys == view.Keys
       && forall k :: k in view ==> FillLookup(view, lookup, keys).view[k] == view[k] + LookupRouted(lookup, keys, k))
  {
    var n := |keys|;
    var init, p := keys[..n - 1], keys[n - 1];
    var f := FillLookup(view, lookup, init);
    if lookup.entries[p].Some? {
      var offers := Named(Some(p), lookup.entries[p].value);
      FillPairsRoutes(f.view, Parameters, offers);
      FillableKeys(f.view, view, Parameters, offers);
      var g := FillPairs(f.view, Parameters, offers);
      assert FillLookup(view, lookup, keys) == g;
      if g.error == None {
        forall k | k in view ensures g.view[k] == view[k] + LookupRouted(lookup, keys, k) {
          var earlier, more := LookupRouted(lookup, init, k), Routed(Parameters, offers, k);
          assert LookupRouted(lookup, keys, k) == earlier + more;
          AppendAssoc(view[k], earlier, more);
        }
      }
    } else {
      assert FillLookup(view, lookup, keys).error == Some(TypeError);
      assert !lookup.entries[keys[n - 1]].Some?;
    }
  }

  // ---------------------------------------------------------------- pipeline

  /** No parts yet, for each of the given basket names. */
  function EmptyView(names: seq<string>): (view: map<string, seq<Part>>)
    ensures forall k :: k in view <==> k in names
    ensures forall k :: k in view ==> view[k] == []
  {
    map k | k in names :: []
  }

  /** What reading products, slicing, making baskets and filling them leaves
      behind: the product set, the lookup and basket names when slicing
      succeeded, the baskets' parts and the exception that stopped it. */
  datatype Outcome = Outcome(
    products: seq<string>,
    lookup: Option<Lookup>,
    names: Option<seq<string>>,
    view: map<string, seq<Part>>,
    error: Option<Error>)

  /** The four steps on one page's cells, from the products collected so
      far: `make` of summaries.py and `fill_baskets` of scraping.py. */
  function Pipeline(products: seq<string>, tds: seq<Tag>): (o: Outcome)
    requires Distinct(products)
    ensures Distinct(o.products) && |products| <= |o.products| && o.products[..|products|] == products
    ensures o.lookup.Some? ==> o.lookup.value.Valid() && o.names.Some?
  {
    var c := AddProducts(products, tds);
    if c.error.Some? then Outcome(c.products, None, None, map[], c.error)
    else match SliceSpec(tds, c.products)
      case Err(e) => Outcome(c.products, None, None, map[], Some(e))
      case Ok(lookup) =>
        var names := BasketNames(tds);
        var f := FillLookup(EmptyView(names), lookup, lookup.keys);
        Outcome(c.products, Some(lookup), Some(names), f.view, f.error)
  }

  /** A page without product cells adds no product. */
  lemma {:induction false} NoProductCells(tds: seq<Tag>)
    requires forall i :: 0 <= i < |tds| ==> !tds[i].hasInput
    ensures AddProducts([], tds) == Collected([], None)
  {
    if tds != [] {
      NoProductCells(tds[..|tds| - 1]);
    }
  }

  /** With no product at all, slicing stops the pipeline with ValueError. */
  lemma PipelineNoProducts(tds: seq<Tag>)
    requires forall i :: 0 <= i < |tds| ==> !tds[i].hasInput
    ensures Pipeline([], tds).error == Some(ValueError) && Pipeline([], tds).lookup.None?
  {
    NoProductCells(tds);
    assert SliceSpec(tds, []) == Err(ValueError);
  }

  /** The pipeline succeeds iff products can be read, sliced and every
      product's cells filled in; then there is one basket per distinct class
      of the cells without an `input`, holding exactly the parts routed to it. */
  lemma PipelineRoutes(products: seq<string>, tds: seq<Tag>)
    requires Distinct(products)
    ensures Pipeline(products, tds).error == None <==>
      (AddProducts(products, tds).error == None && SliceSpec(tds, AddProducts(products, tds).products).Ok?
       && LookupFillable(EmptyView(BasketNames(tds)), SliceSpec(tds, AddProducts(products, tds).products).value,
                         SliceSpec(tds, AddProducts(products, tds).products).value.keys))
    ensures Pipeline(products, tds).error == None ==>
      (Pipeline(products, tds).view.Keys == (set k | k in BasketNames(tds))
       && forall k :: k in Pipeline(products, tds).view ==>
         Pipeline(products, tds).view[k] == LookupRouted(Pipeline(products, tds).lookup.value,
                                                        Pipeline(products, tds).lookup.value.keys, k))
  {
    var c := AddProducts(products, tds);
    if c.error == None && SliceSpec(tds, c.products).Ok? {
      var lookup := SliceSpec(tds, c.products).value;
      var view := EmptyView(BasketNames(tds));
      FillLookupRoutes(view, lookup, lookup.keys);
    }
  }
}
