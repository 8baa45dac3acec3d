/** model/modules/page_readers.py: the category-page helpers and the summary
    page reader, which reads a page's cells into a name/id lookup and one
    basket per shop column, then answers cheapest / most expensive queries. */
module PageReaders {
  import opened Common
  import opened Strings
  import opened Dicts
  import opened Parts
  import opened Baskets
  import opened Tags
  import opened Pages
  import opened Offers

  // ------------------------------------------------------- category pages

  const UrlPrefix: string := "https://www.ceneo.pl/Karty_graficzne;0020-30-0-0-"
  const UrlSuffix: string := ".htm"

  /** The f-string template of `_generate_category_urls` for page `i`. */
  function CategoryUrl(i: nat): string
  {
    UrlPrefix + NatToString(i) + UrlSuffix
  }

  /** Reads the page number back out of a category URL. */
  function PageNumber(url: string): Option<nat>
  {
    var p, q := |UrlPrefix|, |UrlSuffix|;
    if |url| >= p + q && url[..p] == UrlPrefix && url[|url| - q..] == UrlSuffix && IsDigits(url[p..|url| - q])
    then Some(ParseDigits(url[p..|url| - q]))
    else None
  }

  /** The template URL of page `i` names page `i`. */
  lemma PageNumberOfCategoryUrl(i: nat)
    ensures PageNumber(CategoryUrl(i)) == Some(i)
  {
    var url := CategoryUrl(i);
    var p, q := |UrlPrefix|, |UrlSuffix|;
    assert url[..p] == UrlPrefix;
    assert url[|url| - q..] == UrlSuffix;
    assert url[p..|url| - q] == NatToString(i);
    ParseNatToString(i);
  }

  /** `_generate_category_urls(base_url, n)`: the template URL for every page
      `0 <= i < n`, then `urls[0] = base_url`, which raises IndexError on the
      empty list, that is whenever `n <= 0` (`range(0, n)` is then empty). */
  function GenerateCategoryUrls(base: string, n: int): (r: Result<seq<string>>)
    ensures r.Err? <==> n <= 0
    ensures r.Err? ==> r.error == IndexError
    ensures r.Ok? ==> |r.value| == n && r.value[0] == base
  {
    if n <= 0 then Err(IndexError)
    else Ok(seq(n, i requires 0 <= i < n => CategoryUrl(i))[0 := base])
  }

  /** Every URL after the first names its own position as page number, so
      those URLs are pairwise different. */
  lemma CategoryUrlsNumbered(base: string, n: int, i: nat)
    requires 1 <= i < n
    ensures GenerateCategoryUrls(base, n).Ok?
    ensures PageNumber(GenerateCategoryUrls(base, n).value[i]) == Some(i)
  {
    assert GenerateCategoryUrls(base, n).value[i] == CategoryUrl(i);
    PageNumberOfCategoryUrl(i);
  }

  /** A `span` of the main content, reduced to the strings inside it. */
  datatype SpanTag = SpanTag(strings: seq<string>)

  const Marker: string := "Więcej produktów"

  /** `tag.find(text="Więcej produktów")` finds something. */
  predicate HasMarker(t: SpanTag)
  {
    Marker in t.strings
  }

  /** `_find_starting_tag`: the first tag holding the marker text decides;
      the result is the index after it and the tag there. Without a marker
      the loop ends and the function returns None; a marker in the last tag
      makes `tags[i + 1]` raise IndexError. */
  method FindStartingTag(tags: seq<SpanTag>) returns (r: Result<Option<(nat, SpanTag)>>)
    ensures r == Ok(None) <==> forall i :: 0 <= i < |tags| ==> !HasMarker(tags[i])
    ensures r.Err? ==> (r.error == IndexError && |tags| > 0 && HasMarker(tags[|tags| - 1])
                        && forall i :: 0 <= i < |tags| - 1 ==> !HasMarker(tags[i]))
    ensures r.Ok? && r.value.Some? ==>
      (1 <= r.value.value.0 < |tags| && r.value.value.1 == tags[r.value.value.0]
       && HasMarker(tags[r.value.value.0 - 1])
       && forall i :: 0 <= i < r.value.value.0 - 1 ==> !HasMarker(tags[i]))
  {
    for i := 0 to |tags|
      invariant forall j :: 0 <= j < i ==> !HasMarker(tags[j])
    {
      if HasMarker(tags[i]) {
        if i + 1 >= |tags| {
          return Err(IndexError);
        }
        return Ok(Some((i + 1, tags[i + 1])));
      }
    }
    r := Ok(None);
  }

  /** `_find_product_tags` on the main content's spans: the tags after the
      first marker. No marker makes `None[0]` a TypeError; a marker in the
      last tag is the IndexError of `_find_starting_tag`. */
  method FindProductTags(tags: seq<SpanTag>) returns (r: Result<seq<SpanTag>>)
    ensures r.Ok? <==> exists i :: 0 <= i < |tags| - 1 && HasMarker(tags[i])
    ensures r.Err? ==> r.error == (if exists i :: 0 <= i < |tags| && HasMarker(tags[i]) then IndexError else TypeError)
    ensures r.Ok? ==> (0 < |r.value| < |tags| && r.value == tags[|tags| - |r.value|..]
                       && HasMarker(tags[|tags| - |r.value| - 1])
                       && forall i :: 0 <= i < |tags| - |r.value| - 1 ==> !HasMarker(tags[i]))
  {
    var start := FindStartingTag(tags);
    if start.Err? {
      return Err(start.error);
    }
    if start.value.None? {
      return Err(TypeError);
    }
    var k := start.value.value.0;
    r := Ok(tags[k..]);
  }

  // -------------------------------------------------------------- products

  /** A product cell can be read: it has an `img` with an alt and an input
      value that `int` accepts. Other cells are skipped. */
  predicate Readable(t: Tag)
  {
    t.hasInput ==> t.imgAlt.Some? && t.inputValue.Some?
  }

  /** The `part_name_to_id` loop of `parse_products`: each product cell maps
      its img alt to its input value (a repeated name is overwritten); a
      missing img is a TypeError, a value that is not an integer a
      ValueError. */
  function NameToId(tds: seq<Tag>): (r: Result<Dict<string, int>>)
    ensures r.Ok? ==> r.value.Valid()
    ensures r.Err? ==> r.error == TypeError || r.error == ValueError
  {
    if tds == [] then Ok(Empty())
    else match NameToId(tds[..|tds| - 1])
      case Err(e) => Err(e)
      case Ok(d) =>
        var t := tds[|tds| - 1];
        if !t.hasInput then Ok(d)
        else if t.imgAlt.None? then Err(TypeError)
        else if t.inputValue.None? then Err(ValueError)
        else Ok(d.Put(t.imgAlt.value, t.inputValue.value))
  }

  /** Reading fails iff some product cell cannot be read. */
  lemma {:induction false} NameToIdFails(tds: seq<Tag>)
    ensures NameToId(tds).Ok? <==> forall i :: 0 <= i < |tds| ==> Readable(tds[i])
  {
    if tds != [] {
      var init := tds[..|tds| - 1];
      NameToIdFails(init);
      assert forall i :: 0 <= i < |init| ==> init[i] == tds[i];
    }
  }

  /** The names are exactly the alts of the product cells. */
  lemma {:induction false} NameToIdKeys(tds: seq<Tag>, name: string)
    requires NameToId(tds).Ok?
    ensures name in NameToId(tds).value.entries <==>
      exists i :: 0 <= i < |tds| && tds[i].hasInput && tds[i].imgAlt == Some(name)
  {
    if tds != [] {
      var init := tds[..|tds| - 1];
      NameToIdKeys(init, name);
      assert forall i :: 0 <= i < |init| ==> init[i] == tds[i];
    }
  }

  /** A name that occurs on several product cells keeps the id of the LAST:
      the id of the alt of a product cell that no later product cell shares
      is that cell's value. */
  lemma {:induction false} NameToIdLastWins(tds: seq<Tag>, j: nat)
    requires NameToId(tds).Ok? && j < |tds| && tds[j].hasInput
    requires forall l :: j < l < |tds| ==> !(tds[l].hasInput && tds[l].imgAlt == tds[j].imgAlt)
    ensures tds[j].imgAlt.Some? && tds[j].imgAlt.value in NameToId(tds).value.entries
    ensures Some(NameToId(tds).value.entries[tds[j].imgAlt.value]) == tds[j].inputValue
  {
    var m := |tds|;
    var init := tds[..m - 1];
    if j == m - 1 {
      NameToIdLastPut(tds);
    } else {
      var alt := tds[j].imgAlt;
      NameToIdKeepsOthers(tds, alt);
      assert init[j] == tds[j];
      forall l | j < l < m - 1 ensures !(init[l].hasInput && init[l].imgAlt == alt) {
        assert init[l] == tds[l];
      }
      NameToIdLastWins(init, j);
    }
  }

  /** A last product cell sets the id of its alt. */
  lemma NameToIdLastPut(tds: seq<Tag>)
    requires tds != [] && NameToId(tds).Ok? && tds[|tds| - 1].hasInput
    ensures tds[|tds| - 1].imgAlt.Some? && tds[|tds| - 1].inputValue.Some?
    ensures tds[|tds| - 1].imgAlt.value in NameToId(tds).value.entries
    ensures NameToId(tds).value.entries[tds[|tds| - 1].imgAlt.value] == tds[|tds| - 1].inputValue.value
  {
  }

  /** A last cell that is not a product cell with alt `name` leaves the id
      of `name` as it was. */
  lemma NameToIdKeepsOthers(tds: seq<Tag>, name: Option<string>)
    requires tds != [] && NameToId(tds).Ok?
    requires !(tds[|tds| - 1].hasInput && tds[|tds| - 1].imgAlt == name)
    ensures NameToId(tds[..|tds| - 1]).Ok?
    ensures name.Some? && name.value in NameToId(tds[..|tds| - 1]).value.entries ==>
      name.value in NameToId(tds).value.entries
      && NameToId(tds).value.entries[name.value] == NameToId(tds[..|tds| - 1]).value.entries[name.value]
  {
  }

  /** `{id: name for name, id in ...}` over the names `ks`, in order. */
  function InvertKeys(entries: map<string, int>, ks: seq<string>): (inv: Dict<int, string>)
    requires forall k :: k in ks ==> k in entries
    ensures inv.Valid()
  {
    if ks == [] then Empty()
    else InvertKeys(entries, ks[..|ks| - 1]).Put(entries[ks[|ks| - 1]], ks[|ks| - 1])
  }

  /** `part_id_to_name`: the inversion of `part_name_to_id`. */
  function Invert(d: Dict<string, int>): Dict<int, string>
    requires d.Valid()
  {
    InvertKeys(d.entries, d.keys)
  }

  /** Every inverted entry points back: `name_to_id[id_to_name[id]] == id`,
      and the ids are exactly the values of the names in `ks`. */
  lemma {:induction false} InvertKeysSound(entries: map<string, int>, ks: seq<string>, id: int)
    requires forall k :: k in ks ==> k in entries
    ensures id in InvertKeys(entries, ks).entries ==>
      InvertKeys(entries, ks).entries[id] in ks && entries[InvertKeys(entries, ks).entries[id]] == id
    ensures id in InvertKeys(entries, ks).entries <==> exists k :: k in ks && entries[k] == id
  {
    if ks != [] {
      var init := ks[..|ks| - 1];
      InvertKeysSound(entries, init, id);
    }
  }

  /** With distinct ids, every name is found again under its id. */
  lemma {:induction false} InvertKeysExact(entries: map<string, int>, ks: seq<string>, name: string)
    requires forall k :: k in ks ==> k in entries
    requires forall a, b :: a in entries && b in entries && a != b ==> entries[a] != entries[b]
    requires name in ks
    ensures entries[name] in InvertKeys(entries, ks).entries
    ensures InvertKeys(entries, ks).entries[entries[name]] == name
  {
    var last := ks[|ks| - 1];
    if last != name {
      var init := ks[..|ks| - 1];
      assert name in init by {
        var i :| 0 <= i < |ks| && ks[i] == name;
        assert i < |ks| - 1 && init[i] == name;
      }
      InvertKeysExact(entries, init, name);
    }
  }

  /** The two lookups of `parse_products` agree entry by entry; when no two
      products share an id they are exact inverses. */
  lemma InvertIsInverse(d: Dict<string, int>)
    requires d.Valid()
    ensures forall id :: id in Invert(d).entries ==>
      Invert(d).entries[id] in d.entries && d.entries[Invert(d).entries[id]] == id
    ensures forall id :: id in Invert(d).entries <==> exists name :: name in d.entries && d.entries[name] == id
    ensures (forall a, b :: a in d.entries && b in d.entries && a != b ==> d.entries[a] != d.entries[b]) ==>
      forall name :: name in d.entries ==>
        d.entries[name] in Invert(d).entries && Invert(d).entries[d.entries[name]] == name
  {
    forall id ensures id in Invert(d).entries ==>
      Invert(d).entries[id] in d.entries && d.entries[Invert(d).entries[id]] == id
    ensures id in Invert(d).entries <==> exists name :: name in d.entries && d.entries[name] == id
    {
      InvertKeysSound(d.entries, d.keys, id);
    }
    if forall a, b :: a in d.entries && b in d.entries && a != b ==> d.entries[a] != d.entries[b] {
      forall name | name in d.entries
        ensures d.entries[name] in Invert(d).entries && Invert(d).entries[d.entries[name]] == name
      {
        InvertKeysExact(d.entries, d.keys, name);
      }
    }
  }

  /** Once reading has failed, later cells change nothing. */
  lemma {:induction false} NameToIdStopped(tds: seq<Tag>, k: nat)
    requires k <= |tds| && NameToId(tds[..k]).Err?
    ensures NameToId(tds) == NameToId(tds[..k])
    decreases |tds| - k
  {
    if k < |tds| {
      assert tds[..k + 1][..k] == tds[..k];
      NameToIdStopped(tds, k + 1);
    } else {
      assert tds[..k] == tds;
    }
  }

  /** `parse_products`: both lookups, or the exception that stopped it. */
  method ParseProducts(tds: seq<Tag>) returns (r: Result<(Dict<string, int>, Dict<int, string>)>)
    ensures r.Err? <==> NameToId(tds).Err?
    ensures r.Err? ==> r.error == NameToId(tds).error
    ensures r.Ok? ==> r.value.0 == NameToId(tds).value && r.value.0.Valid() && r.value.1 == Invert(r.value.0)
  {
    var nameToId: Dict<string, int> := Empty();
    for i := 0 to |tds|
      invariant NameToId(tds[..i]) == Ok(nameToId)
    {
      assert tds[..i + 1][..i] == tds[..i];
      var t := tds[i];
      if t.hasInput {
        if t.imgAlt.None? || t.inputValue.None? {
          NameToIdStopped(tds, i + 1);
          return Err(if t.imgAlt.None? then TypeError else ValueError);
        }
        nameToId := nameToId.Put(t.imgAlt.value, t.inputValue.value);
      }
    }
    assert tds[..|tds|] == tds;
    r := Ok((nameToId, Invert(nameToId)));
  }

  // --------------------------------------------------------------- filling

  /** `part_id_to_name.get(basket_part_id)`: None for a missing or unknown id. */
  function NameOf(idToName: Dict<int, string>, id: ProductId): Option<string>
  {
    if id.IntId? && id.id in idToName.entries then Some(idToName.entries[id.id]) else None
  }

  /** The cells `fill_baskets` hands on to the part-building step: those
      without an `input`, in order, each with the product name its id
      resolves to. (`ReaderFill` stops earlier at a malformed id.) */
  function ReaderOffers(tds: seq<Tag>, idToName: Dict<int, string>): (os: seq<Offer>)
    ensures forall o :: o in os ==> !o.1.hasInput && o.0 == NameOf(idToName, o.1.productId)
  {
    if tds == [] then []
    else
      var os := ReaderOffers(tds[..|tds| - 1], idToName);
      var t := tds[|tds| - 1];
      if t.hasInput then os else os + [(NameOf(idToName, t.productId), t)]
  }

  /** Every cell without an `input` is handed on. */
  lemma {:induction false} ReaderOffersComplete(tds: seq<Tag>, idToName: Dict<int, string>, i: nat)
    requires i < |tds| && !tds[i].hasInput
    ensures (NameOf(idToName, tds[i].productId), tds[i]) in ReaderOffers(tds, idToName)
  {
    var init := tds[..|tds| - 1];
    if i < |tds| - 1 {
      assert init[i] == tds[i];
      ReaderOffersComplete(init, idToName, i);
    }
  }

  /** Every cell handed on is a cell without an `input` of the page. */
  lemma {:induction false} ReaderOffersSound(tds: seq<Tag>, idToName: Dict<int, string>, o: Offer)
    requires o in ReaderOffers(tds, idToName)
    ensures exists i :: 0 <= i < |tds| && tds[i] == o.1 && !tds[i].hasInput
  {
    var init := tds[..|tds| - 1];
    if o in ReaderOffers(init, idToName) {
      ReaderOffersSound(init, idToName, o);
      var i :| 0 <= i < |init| && init[i] == o.1 && !init[i].hasInput;
      assert tds[i] == init[i];
    }
  }

  /** Reference definition: the positions of the cells without an `input`,
      in increasing order. */
  function InputFreeCells(tds: seq<Tag>): (ix: seq<nat>)
    ensures forall j :: 0 <= j < |ix| ==> ix[j] < |tds| && !tds[ix[j]].hasInput
    ensures forall j, j' :: 0 <= j < j' < |ix| ==> ix[j] < ix[j']
    ensures forall i :: 0 <= i < |tds| && !tds[i].hasInput ==> i in ix
  {
    if tds == [] then []
    else
      var init := tds[..|tds| - 1];
      var ix := InputFreeCells(init);
      assert forall j :: 0 <= j < |ix| ==> tds[ix[j]] == init[ix[j]];
      if tds[|tds| - 1].hasInput then ix else ix + [|tds| - 1]
  }

  /** The cells handed on are the cells without an `input`, one offer per
      cell, in page order: the `basket_tags` filter. */
  lemma {:induction false} ReaderOffersInOrder(tds: seq<Tag>, idToName: Dict<int, string>)
    ensures |ReaderOffers(tds, idToName)| == |InputFreeCells(tds)|
    ensures forall j :: 0 <= j < |InputFreeCells(tds)| ==>
      ReaderOffers(tds, idToName)[j]
        == (NameOf(idToName, tds[InputFreeCells(tds)[j]].productId), tds[InputFreeCells(tds)[j]])
  {
    if tds != [] {
      var init := tds[..|tds| - 1];
      ReaderOffersInOrder(init, idToName);
      var ix := InputFreeCells(init);
      assert forall j :: 0 <= j < |ix| ==> tds[ix[j]] == init[ix[j]];
    }
  }

  /** No cell without an `input` carries a `data-productid` that `int`
      rejects. */
  predicate IdsReadable(tds: seq<Tag>)
  {
    forall i :: 0 <= i < |tds| && !tds[i].hasInput ==> !tds[i].productId.NotInt?
  }

  /** `fill_baskets` over the cells, stopping at the first exception: each
      cell without an `input` is read by `read_basket_tag`, whose `int` of a
      malformed `data-productid` raises ValueError (only TypeError and
      KeyError are caught), with or without spans; otherwise the cell goes
      through the shared loop body with the name its id resolves to.
      `keywords` are the keyword names of the `Part` call. */
  function ReaderFill(view: map<string, seq<Part>>, keywords: set<string>, tds: seq<Tag>,
                      idToName: Dict<int, string>): (f: Filled)
  {
    if tds == [] then Filled(view, None)
    else
      var f := ReaderFill(view, keywords, tds[..|tds| - 1], idToName);
      var t := tds[|tds| - 1];
      if f.error.Some? || t.hasInput then f
      else if t.productId.NotInt? then Filled(f.view, Some(ValueError))
      else AddOffer(f.view, keywords, (NameOf(idToName, t.productId), t))
  }

  /** With every id readable, the fill is the shared loop over the cells
      handed on. */
  lemma {:induction false} ReaderFillIsFillPairs(view: map<string, seq<Part>>, keywords: set<string>,
                                                  tds: seq<Tag>, idToName: Dict<int, string>)
    requires IdsReadable(tds)
    ensures ReaderFill(view, keywords, tds, idToName) == FillPairs(view, keywords, ReaderOffers(tds, idToName))
  {
    if tds != [] {
      var init := tds[..|tds| - 1];
      assert forall i :: 0 <= i < |init| ==> init[i] == tds[i];
      ReaderFillIsFillPairs(view, keywords, init, idToName);
      var os := ReaderOffers(init, idToName);
      var t := tds[|tds| - 1];
      if !t.hasInput {
        assert (os + [(NameOf(idToName, t.productId), t)])[..|os|] == os;
      }
    }
  }

  /** Once the fill has failed, later cells change nothing. */
  lemma {:induction false} ReaderFillStopped(view: map<string, seq<Part>>, keywords: set<string>, tds: seq<Tag>,
                                              idToName: Dict<int, string>, k: nat)
    requires k <= |tds| && ReaderFill(view, keywords, tds[..k], idToName).error.Some?
    ensures ReaderFill(view, keywords, tds, idToName) == ReaderFill(view, keywords, tds[..k], idToName)
    decreases |tds| - k
  {
    if k < |tds| {
      assert tds[..k + 1][..k] == tds[..k];
      ReaderFillStopped(view, keywords, tds, idToName, k + 1);
    } else {
      assert tds[..k] == tds;
    }
  }

  /** A cell without an `input` whose id `int` rejects ends the fill: the
      cells before it decide, and if they all pass, the fill raises
      ValueError on the baskets as they left them. */
  lemma ReaderFillMalformedId(view: map<string, seq<Part>>, keywords: set<string>, tds: seq<Tag>,
                              idToName: Dict<int, string>, i: nat)
    requires i < |tds| && !tds[i].hasInput && tds[i].productId.NotInt?
    ensures ReaderFill(view, keywords, tds, idToName) ==
      (var f := ReaderFill(view, keywords, tds[..i], idToName);
       if f.error.Some? then f else Filled(f.view, Some(ValueError)))
    ensures ReaderFill(view, keywords, tds, idToName).error.Some?
  {
    assert tds[..i + 1][..i] == tds[..i];
    ReaderFillStopped(view, keywords, tds, idToName, i + 1);
  }

  /** A cell yields a part: its spans carry every required class. */
  predicate HasRequiredSpans(t: Tag)
  {
    RequiredSpans <= ZipDict(SpanKeys(t), SpanValues(t)).Keys
  }

  /** With every offer cell's spans complete, each cell handed on is
      accepted. */
  lemma ReaderAccepts(view: map<string, seq<Part>>, tds: seq<Tag>, idToName: Dict<int, string>, o: Offer)
    requires forall k :: k in BasketNames(tds) ==> k in view
    requires forall i :: 0 <= i < |tds| && !tds[i].hasInput && tds[i].spans != [] ==> HasRequiredSpans(tds[i])
    requires o in ReaderOffers(tds, idToName)
    ensures Accepts(view, Parameters, o)
  {
    ReaderOffersSound(tds, idToName, o);
    var i :| 0 <= i < |tds| && tds[i] == o.1 && !tds[i].hasInput;
    assert o.1.cls in BasketNames(tds);
  }

  /** Corrected `fill_baskets` (the six keywords `Part` declares), on
      baskets that include every basket `make_baskets` creates: it never hits
      a missing basket, so it fails iff some cell without an `input` has a
      malformed id or has spans but lacks a required span class; then every
      basket ends with its earlier parts followed by exactly the parts of the
      cells routed to it, each named by `part_id_to_name.get` of the cell's
      id. */
  lemma ReaderFillSucceeds(view: map<string, seq<Part>>, tds: seq<Tag>, idToName: Dict<int, string>)
    requires forall k :: k in BasketNames(tds) ==> k in view
    ensures ReaderFill(view, Parameters, tds, idToName).error == None <==>
      IdsReadable(tds)
      && forall i :: 0 <= i < |tds| && !tds[i].hasInput && tds[i].spans != [] ==> HasRequiredSpans(tds[i])
    ensures ReaderFill(view, Parameters, tds, idToName).error == None ==>
      (ReaderFill(view, Parameters, tds, idToName).view.Keys == view.Keys
       && forall k :: k in view ==>
         ReaderFill(view, Parameters, tds, idToName).view[k]
           == view[k] + Routed(Parameters, ReaderOffers(tds, idToName), k))
  {
    if IdsReadable(tds) {
      ReaderFillIsFillPairs(view, Parameters, tds, idToName);
      ReaderPairsSucceed(view, tds, idToName);
    } else {
      var i :| 0 <= i < |tds| && !tds[i].hasInput && tds[i].productId.NotInt?;
      ReaderFillMalformedId(view, Parameters, tds, idToName, i);
    }
  }

  /** The shared loop over the cells handed on succeeds iff every
      span-bearing one carries the required spans, and then routes. */
  lemma ReaderPairsSucceed(view: map<string, seq<Part>>, tds: seq<Tag>, idToName: Dict<int, string>)
    requires forall k :: k in BasketNames(tds) ==> k in view
    ensures FillPairs(view, Parameters, ReaderOffers(tds, idToName)).error == None <==>
      forall i :: 0 <= i < |tds| && !tds[i].hasInput && tds[i].spans != [] ==> HasRequiredSpans(tds[i])
    ensures FillPairs(view, Parameters, ReaderOffers(tds, idToName)).error == None ==>
      (FillPairs(view, Parameters, ReaderOffers(tds, idToName)).view.Keys == view.Keys
       && forall k :: k in view ==>
         FillPairs(view, Parameters, ReaderOffers(tds, idToName)).view[k]
           == view[k] + Routed(Parameters, ReaderOffers(tds, idToName), k))
  {
    var os := ReaderOffers(tds, idToName);
    FillPairsRoutes(view, Parameters, os);
    FillableAll(view, Parameters, os);
    if forall i :: 0 <= i < |tds| && !tds[i].hasInput && tds[i].spans != [] ==> HasRequiredSpans(tds[i]) {
      forall j | 0 <= j < |os| ensures Accepts(view, Parameters, os[j]) {
        ReaderAccepts(view, tds, idToName, os[j]);
      }
    } else {
      var i :| 0 <= i < |tds| && !tds[i].hasInput && tds[i].spans != [] && !HasRequiredSpans(tds[i]);
      ReaderRejects(view, tds, idToName, i);
    }
  }

  /** A cell with spans but without the required ones makes the filling
      fail. */
  lemma ReaderRejects(view: map<string, seq<Part>>, tds: seq<Tag>, idToName: Dict<int, string>, i: nat)
    requires i < |tds| && !tds[i].hasInput && tds[i].spans != [] && !HasRequiredSpans(tds[i])
    ensures !Fillable(view, Parameters, ReaderOffers(tds, idToName))
  {
    var os := ReaderOffers(tds, idToName);
    var o := (NameOf(idToName, tds[i].productId), tds[i]);
    ReaderOffersComplete(tds, idToName, i);
    assert !Accepts(view, Parameters, o);
    var j :| 0 <= j < |os| && os[j] == o;
    FillableAll(view, Parameters, os);
  }

  /** The parts routed to a basket come from cells of that basket's class
      and are named by `part_id_to_name.get` of the cell's id. */
  lemma ReaderRoutedParts(tds: seq<Tag>, idToName: Dict<int, string>, k: string, p: Part)
    requires p in Routed(Parameters, ReaderOffers(tds, idToName), k)
    ensures exists i :: (0 <= i < |tds| && !tds[i].hasInput && tds[i].cls == k && tds[i].spans != []
      && HasRequiredSpans(tds[i]) && p.name == NameOf(idToName, tds[i].productId)
      && p.shop == ZipDict(SpanKeys(tds[i]), SpanValues(tds[i]))["offer-shop-domain"]
      && p.price == ZipDict(SpanKeys(tds[i]), SpanValues(tds[i]))["price"])
  {
    var os := ReaderOffers(tds, idToName);
    RoutedFrom(Parameters, os, k, p);
    var o :| o in os && o.1.cls == k && o.1.spans != [] && OfferPart(Parameters, o) == Ok(p) && p.name == o.0;
    ReaderOffersSound(tds, idToName, o);
    var i :| 0 <= i < |tds| && tds[i] == o.1 && !tds[i].hasInput;
  }

  /** `fill_baskets` as written passes `brand`, `category` and `part_id` to
      `Part`, which declares none of them: the first cell without an `input`
      that has spans or a malformed id raises (ValueError for the id,
      otherwise KeyError when a span class is missing and TypeError when
      none is), so the fill fails iff some such cell exists, and no basket
      ever receives a part. */
  lemma {:induction false} FillBasketsAsWrittenFails(view: map<string, seq<Part>>, tds: seq<Tag>,
                                                      idToName: Dict<int, string>)
    ensures ReaderFill(view, PageReaderKeywords, tds, idToName).view == view
    ensures ReaderFill(view, PageReaderKeywords, tds, idToName).error == None <==>
      forall i :: 0 <= i < |tds| && !tds[i].hasInput ==> tds[i].spans == [] && !tds[i].productId.NotInt?
    ensures ReaderFill(view, PageReaderKeywords, tds, idToName).error.Some? ==>
      ReaderFill(view, PageReaderKeywords, tds, idToName).error.value in {TypeError, KeyError, ValueError}
  {
    if tds != [] {
      var m := |tds|;
      var init := tds[..m - 1];
      FillBasketsAsWrittenFails(view, init, idToName);
      assert forall i :: 0 <= i < m - 1 ==> init[i] == tds[i];
      assert "brand" in PageReaderKeywords && "brand" !in Parameters;
    }
  }

  // ------------------------------------------------------ derived columns

  /** One row of the columns `_enhance_df` derives for an index key. */
  datatype DerivedRow = DerivedRow(
    key: string,
    cheapestShop: string,
    mostExpensiveShop: string,
    cheapestOffer: string,
    mostExpensiveOffer: string,
    timestamp: int,
    title: string)

  /** The derived columns for one key that some part matches. */
  function Derive(ps: seq<Part>, key: string, timestamp: int, title: string): (row: DerivedRow)
    requires AnyMatch(ps, key)
    ensures row.key == key && row.timestamp == timestamp && row.title == title
    ensures Ok(Some(row.cheapestShop)) == CheapestOffer(ps, key, "shop")
    ensures Ok(Some(row.mostExpensiveShop)) == MostExpensiveOffer(ps, key, "shop")
    ensures Ok(Some(row.cheapestOffer)) == CheapestOffer(ps, key, "price")
    ensures Ok(Some(row.mostExpensiveOffer)) == MostExpensiveOffer(ps, key, "price")
  {
    FindersFailIffNoMatch(ps, key, "shop");
    FindersFailIffNoMatch(ps, key, "price");
    DerivedRow(key,
      CheapestOffer(ps, key, "shop").value.value, MostExpensiveOffer(ps, key, "shop").value.value,
      CheapestOffer(ps, key, "price").value.value, MostExpensiveOffer(ps, key, "price").value.value,
      timestamp, title)
  }

  /** `_enhance_df` on an index: the four finder columns for every key, and
      the same timestamp and title on every row; a key no part matches makes
      a finder raise ValueError. */
  function EnhanceRows(ps: seq<Part>, index: seq<string>, timestamp: int, title: string): (r: Result<seq<DerivedRow>>)
    ensures r.Ok? <==> forall i :: 0 <= i < |index| ==> AnyMatch(ps, index[i])
    ensures r.Err? ==> r.error == ValueError
    ensures r.Ok? ==> (|r.value| == |index|
      && forall i :: 0 <= i < |index| ==> r.value[i] == Derive(ps, index[i], timestamp, title))
  {
    if forall i :: 0 <= i < |index| ==> AnyMatch(ps, index[i]) then
      Ok(seq(|index|, i requires 0 <= i < |index| && AnyMatch(ps, index[i]) => Derive(ps, index[i], timestamp, title)))
    else Err(ValueError)
  }

  /** Each derived row holds the least and the greatest matching price, in
      that order, and one shared timestamp and title. */
  lemma EnhancedRowsOrdered(ps: seq<Part>, index: seq<string>, timestamp: int, title: string, i: nat)
    requires EnhanceRows(ps, index, timestamp, title).Ok? && i < |index|
    ensures var row := EnhanceRows(ps, index, timestamp, title).value[i];
      row.key == index[i] && row.timestamp == timestamp && row.title == title
      && StrLe(row.cheapestOffer, row.mostExpensiveOffer)
      && (forall j :: 0 <= j < |ps| && Matches(ps[j], index[i]) ==>
            StrLe(row.cheapestOffer, ps[j].price) && StrLe(ps[j].price, row.mostExpensiveOffer))
  {
    CheapestAtMostMostExpensive(ps, index[i]);
    CheapestPriceIsLeast(ps, index[i]);
    MostExpensivePriceIsGreatest(ps, index[i]);
  }

  // ---------------------------------------------------------------- reader

  /** A fetched summary page: its `title` element's text, if any, and its
      `td` cells. */
  datatype Page = Page(title: Option<string>, tds: seq<Tag>)

  /** `get_title`: the title text up to the first "-", stripped; a page
      without a `title` element is an AttributeError. */
  function TitleOf(page: Page): (r: Result<string>)
    ensures r.Err? <==> page.title.None?
    ensures r.Err? ==> r.error == AttributeError
  {
    if page.title.None? then Err(AttributeError)
    else Ok(Strip(BeforeFirst(page.title.value, '-')))
  }

  /** The title is a slice of the title text, taken from the part before
      its first "-". */
  lemma TitleIsSlice(page: Page)
    requires page.title.Some?
    ensures TitleOf(page).Ok?
    ensures LeadingSpace(BeforeFirst(page.title.value, '-')) + |TitleOf(page).value|
      <= |BeforeFirst(page.title.value, '-')|
    ensures TitleOf(page).value == page.title.value[LeadingSpace(BeforeFirst(page.title.value, '-'))
      .. LeadingSpace(BeforeFirst(page.title.value, '-')) + |TitleOf(page).value|]
  {
    StripPrefix(page.title.value, BeforeFirst(page.title.value, '-'), '-');
  }

  /** The title holds no "-". */
  lemma TitleNoDash(page: Page)
    requires page.title.Some?
    ensures TitleOf(page).Ok?
    ensures '-' !in TitleOf(page).value
  {
    StripPrefix(page.title.value, BeforeFirst(page.title.value, '-'), '-');
  }

  /** `CeneoSummaryPageReader`: its lookups, baskets, title and timestamp. */
  class SummaryPageReader {
    var page: Option<Page>
    var title: Option<string>
    var timestamp: Option<int>
    var nameToId: Dict<string, int>
    var idToName: Dict<int, string>
    var baskets: Dict<string, Basket>

    ghost predicate Valid()
      reads this
    {
      baskets.Valid() && Separate(baskets)
    }

    /** `__init__` after the URL check: no timestamp, no baskets, empty lookups. */
    constructor ()
      ensures Valid()
      ensures page == None && title == None && timestamp == None
      ensures nameToId == Empty() && idToName == Empty() && baskets == Empty()
    {
      page := None;
      title := None;
      timestamp := None;
      nameToId := Empty();
      idToName := Empty();
      baskets := Empty();
    }

    /** The parts of all baskets, basket after basket. */
    ghost function Parts(): seq<Part>
      reads this, baskets.entries.Values
      requires Valid()
    {
      AllParts(View(baskets), baskets.keys)
    }

    /** The `price_to_shop_lookup` loops of both finders. */
    method PriceLookup(q: string) returns (d: Dict<string, string>)
      requires Valid()
      ensures d == PriceToShop(Parts(), q)
    {
      d := Empty();
      ghost var seen: seq<Part> := [];
      for i := 0 to |baskets.keys|
        invariant seen == AllParts(View(baskets), baskets.keys[..i])
        invariant d == PriceToShop(seen, q)
      {
        var key := baskets.keys[i];
        assert baskets.keys[..i + 1][..i] == baskets.keys[..i];
        var basket := baskets.entries[key];
        d := PutMatching(d, seen, basket.parts, q);
        seen := seen + basket.parts;
      }
      assert baskets.keys[..|baskets.keys|] == baskets.keys;
    }

    /** `find_cheapest_offer(part, return_type)`. */
    method FindCheapestOffer(q: string, returnType: string) returns (r: Result<Option<string>>)
      requires Valid()
      ensures r == CheapestOffer(Parts(), q, returnType)
    {
      var d := PriceLookup(q);
      if returnType == "shop" {
        if d.keys == [] {
          return Err(ValueError);
        }
        return Ok(Some(d.entries[MinOf(d.keys)]));
      } else if returnType == "price" {
        if d.keys == [] {
          return Err(ValueError);
        }
        return Ok(Some(MinOf(d.keys)));
      }
      r := Ok(None);
    }

    /** `find_most_expensive_offer(part, return_type)`. */
    method FindMostExpensiveOffer(q: string, returnType: string) returns (r: Result<Option<string>>)
      requires Valid()
      ensures r == MostExpensiveOffer(Parts(), q, returnType)
    {
      var d := PriceLookup(q);
      if returnType == "shop" {
        if d.keys == [] {
          return Err(ValueError);
        }
        return Ok(Some(d.entries[MaxOf(d.keys)]));
      } else if returnType == "price" {
        if d.keys == [] {
          return Err(ValueError);
        }
        return Ok(Some(MaxOf(d.keys)));
      }
      r := Ok(None);
    }

    /** `fill_baskets`, where `keywords` are the keyword names of its `Part`
        call (`PageReaderKeywords` as written, `Parameters` corrected): the
        cells without an `input`, in order, stopping at the first
        exception. The baskets keep their names. */
    method FillBaskets(keywords: set<string>) returns (error: Option<Error>)
      requires Valid()
      modifies baskets.entries.Values
      ensures forall k :: k in baskets.entries ==> baskets.entries[k].name == old(baskets.entries[k].name)
      ensures page.None? ==> error == Some(AttributeError) && View(baskets) == old(View(baskets))
      ensures page.Some? ==>
        Filled(View(baskets), error) == ReaderFill(old(View(baskets)), keywords, page.value.tds, idToName)
    {
      if page.None? {
        return Some(AttributeError);
      }
      var tds := page.value.tds;
      ghost var before := View(baskets);
      for i := 0 to |tds|
        invariant ReaderFill(before, keywords, tds[..i], idToName) == Filled(View(baskets), None)
        invariant forall k :: k in baskets.entries ==> baskets.entries[k].name == old(baskets.entries[k].name)
      {
        assert tds[..i + 1][..i] == tds[..i];
        var t := tds[i];
        if !t.hasInput {
          if t.productId.NotInt? {
            ReaderFillStopped(before, keywords, tds, idToName, i + 1);
            return Some(ValueError);
          }
          error := AddOfferTo(baskets, keywords, (NameOf(idToName, t.productId), t));
          if error.Some? {
            ReaderFillStopped(before, keywords, tds, idToName, i + 1);
            return;
          }
        }
      }
      assert tds[..|tds|] == tds;
      error := None;
    }

    /** The part of `read_summary` after the timestamp: the lookups, new
        baskets and the filling, stopping at the first exception; when
        `parse_products` raises, nothing is assigned. */
    method ReadCells(keywords: set<string>, tds: seq<Tag>) returns (error: Option<Error>)
      requires Valid() && page.Some? && page.value.tds == tds
      modifies this
      ensures Valid() && page == old(page) && title == old(title) && timestamp == old(timestamp)
      ensures NameToId(tds).Err? ==>
        (error == Some(NameToId(tds).error) && nameToId == old(nameToId) && idToName == old(idToName)
         && baskets == old(baskets))
      ensures NameToId(tds).Ok? ==>
        (nameToId == NameToId(tds).value && idToName == Invert(nameToId)
         && baskets.keys == BasketNames(tds) && NamedByKey(baskets)
         && Filled(View(baskets), error) == ReaderFill(EmptyView(baskets.keys), keywords, tds, idToName))
    {
      var parsed := ParseProducts(tds);
      if parsed.Err? {
        return Some(parsed.error);
      }
      nameToId, idToName := parsed.value.0, parsed.value.1;
      error := MakeAndFill(keywords, tds);
    }

    /** `make_baskets` then `fill_baskets`: new, empty baskets for the page,
        each named after its key, filled from its cells. */
    method MakeAndFill(keywords: set<string>, tds: seq<Tag>) returns (error: Option<Error>)
      requires Valid() && page.Some? && page.value.tds == tds
      modifies this
      ensures Valid() && page == old(page) && title == old(title) && timestamp == old(timestamp)
      ensures nameToId == old(nameToId) && idToName == old(idToName)
      ensures baskets.keys == BasketNames(tds) && NamedByKey(baskets)
      ensures Filled(View(baskets), error) == ReaderFill(EmptyView(baskets.keys), keywords, tds, idToName)
    {
      baskets := MakeBaskets(tds);
      ghost var empty := View(baskets);
      assert empty == EmptyView(baskets.keys);
      error := FillBaskets(keywords);
    }

    /** `read_summary` up to the result table: fetch (an unsuccessful fetch
        leaves the page None), title, timestamp `now`, then the cells,
        stopping at the first exception. A fetch or title failure leaves
        every field but the page as it was. */
    method ReadSummary(keywords: set<string>, fetched: Option<Page>, now: int) returns (error: Option<Error>)
      requires Valid()
      modifies this
      ensures page == fetched && Valid()
      ensures (fetched.None? || fetched.value.title.None?) ==>
        (error == Some(AttributeError) && title == old(title) && timestamp == old(timestamp)
         && nameToId == old(nameToId) && idToName == old(idToName) && baskets == old(baskets))
      ensures fetched.Some? && fetched.value.title.Some? ==>
        title == Some(TitleOf(fetched.value).value) && timestamp == Some(now)
      ensures fetched.Some? && fetched.value.title.Some? && NameToId(fetched.value.tds).Err? ==>
        (error == Some(NameToId(fetched.value.tds).error)
         && nameToId == old(nameToId) && idToName == old(idToName) && baskets == old(baskets))
      ensures fetched.Some? && fetched.value.title.Some? && NameToId(fetched.value.tds).Ok? ==>
        (nameToId == NameToId(fetched.value.tds).value && idToName == Invert(nameToId)
         && baskets.keys == BasketNames(fetched.value.tds) && NamedByKey(baskets)
         && Filled(View(baskets), error) ==
              ReaderFill(EmptyView(baskets.keys), keywords, fetched.value.tds, idToName))
    {
      page := fetched;
      if fetched.None? {
        return Some(AttributeError);
      }
      var t := TitleOf(fetched.value);
      if t.Err? {
        return Some(t.error);
      }
      title := Some(t.value);
      timestamp := Some(now);
      error := ReadCells(keywords, fetched.value.tds);
    }
  }
}
