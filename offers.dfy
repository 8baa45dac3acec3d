/** Offer selection of model/modules/page_readers.py: a price-to-shop map
    over every part whose name is the query, then its least or greatest key
    in Python's string order. Prices stay raw strings throughout. */
module Offers {
  import opened Common
  import opened Dicts
  import opened Strings
  import opened Parts

  /** `basket_part.name == part` */
  predicate Matches(p: Part, q: string)
  {
    p.name == Some(q)
  }

  /** The parts of the baskets named by `keys`, basket after basket, each in
      its own order (`for basket in baskets.values(): for part in basket.parts`). */
  function AllParts(view: map<string, seq<Part>>, keys: seq<string>): seq<Part>
    requires forall k :: k in keys ==> k in view
  {
    if keys == [] then []
    else AllParts(view, keys[..|keys| - 1]) + view[keys[|keys| - 1]]
  }

  /** `price_to_shop_lookup` after the loops: every matching part writes
      its shop under its price, a later write replacing an earlier one. */
  function PriceToShop(ps: seq<Part>, q: string): (d: Dict<string, string>)
    ensures d.Valid()
  {
    if ps == [] then Empty()
    else
      var d := PriceToShop(ps[..|ps| - 1], q);
      var p := ps[|ps| - 1];
      if Matches(p, q) then d.Put(p.price, p.shop) else d
  }

  /** The inner loop of the finders over one basket's parts: every matching
      part writes its shop under its price. */
  method PutMatching(d: Dict<string, string>, ghost seen: seq<Part>, parts: seq<Part>, q: string)
    returns (grown: Dict<string, string>)
    requires d == PriceToShop(seen, q)
    ensures grown == PriceToShop(seen + parts, q)
  {
    grown := d;
    assert seen + parts[..0] == seen;
    for j := 0 to |parts|
      invariant grown == PriceToShop(seen + parts[..j], q)
    {
      var part := parts[j];
      assert (seen + parts[..j + 1])[..|seen| + j] == seen + parts[..j];
      if part.name == Some(q) {
        grown := grown.Put(part.price, part.shop);
      }
    }
    assert parts[..|parts|] == parts;
  }

  /** The keys are exactly the prices of the matching parts. */
  lemma {:induction false} PriceToShopKeys(ps: seq<Part>, q: string, price: string)
    ensures price in PriceToShop(ps, q).entries <==>
      exists i :: 0 <= i < |ps| && Matches(ps[i], q) && ps[i].price == price
  {
    if ps != [] {
      var init := ps[..|ps| - 1];
      PriceToShopKeys(init, q, price);
      assert forall i :: 0 <= i < |init| ==> init[i] == ps[i];
    }
  }

  /** Under a price sits the shop of the LAST matching part with that price. */
  lemma {:induction false} PriceToShopLastWins(ps: seq<Part>, q: string, i: nat)
    requires i < |ps| && Matches(ps[i], q)
    ensures ps[i].price in PriceToShop(ps, q).entries
    ensures exists j :: (i <= j < |ps| && Matches(ps[j], q) && ps[j].price == ps[i].price
      && PriceToShop(ps, q).entries[ps[i].price] == ps[j].shop
      && forall l :: j < l < |ps| ==> !(Matches(ps[l], q) && ps[l].price == ps[i].price))
  {
    var m := |ps|;
    var init := ps[..m - 1];
    var price := ps[i].price;
    if Matches(ps[m - 1], q) && ps[m - 1].price == price {
      assert PriceToShop(ps, q).entries[price] == ps[m - 1].shop;
    } else {
      assert init[i] == ps[i];
      PriceToShopLastWins(init, q, i);
      var j :| i <= j < m - 1 && Matches(init[j], q) && init[j].price == price
        && PriceToShop(init, q).entries[price] == init[j].shop
        && forall l :: j < l < m - 1 ==> !(Matches(init[l], q) && init[l].price == price);
      assert init[j] == ps[j];
      assert PriceToShop(ps, q).entries[price] == PriceToShop(init, q).entries[price];
      forall l | j < l < m ensures !(Matches(ps[l], q) && ps[l].price == price) {
        if l < m - 1 { assert init[l] == ps[l]; }
      }
    }
  }

  /** Some part matches the query. */
  predicate AnyMatch(ps: seq<Part>, q: string)
  {
    exists i :: 0 <= i < |ps| && Matches(ps[i], q)
  }

  /** The map is empty iff no part matches. */
  lemma PriceToShopEmpty(ps: seq<Part>, q: string)
    ensures PriceToShop(ps, q).keys == [] <==> !AnyMatch(ps, q)
  {
    var d := PriceToShop(ps, q);
    if d.keys != [] {
      PriceToShopKeys(ps, q, d.keys[0]);
    }
    if AnyMatch(ps, q) {
      var i :| 0 <= i < |ps| && Matches(ps[i], q);
      PriceToShopKeys(ps, q, ps[i].price);
    }
  }

  /** `find_cheapest_offer(part, return_type)` on the parts of all baskets:
      `min` of an empty key list raises ValueError; a return type other than
      "shop" or "price" falls through and returns None. */
  function CheapestOffer(ps: seq<Part>, q: string, returnType: string): (r: Result<Option<string>>)
    ensures returnType != "shop" && returnType != "price" ==> r == Ok(None)
    ensures r.Err? ==> r.error == ValueError
  {
    var d := PriceToShop(ps, q);
    if returnType == "shop" then
      if d.keys == [] then Err(ValueError) else Ok(Some(d.entries[MinOf(d.keys)]))
    else if returnType == "price" then
      if d.keys == [] then Err(ValueError) else Ok(Some(MinOf(d.keys)))
    else Ok(None)
  }

  /** `find_most_expensive_offer(part, return_type)`, the same with `max`. */
  function MostExpensiveOffer(ps: seq<Part>, q: string, returnType: string): (r: Result<Option<string>>)
    ensures returnType != "shop" && returnType != "price" ==> r == Ok(None)
    ensures r.Err? ==> r.error == ValueError
  {
    var d := PriceToShop(ps, q);
    if returnType == "shop" then
      if d.keys == [] then Err(ValueError) else Ok(Some(d.entries[MaxOf(d.keys)]))
    else if returnType == "price" then
      if d.keys == [] then Err(ValueError) else Ok(Some(MaxOf(d.keys)))
    else Ok(None)
  }

  /** For "shop" and "price" both finders fail iff no part matches, and
      otherwise return a value. */
  lemma FindersFailIffNoMatch(ps: seq<Part>, q: string, returnType: string)
    requires returnType == "shop" || returnType == "price"
    ensures CheapestOffer(ps, q, returnType).Err? <==> !AnyMatch(ps, q)
    ensures MostExpensiveOffer(ps, q, returnType).Err? <==> !AnyMatch(ps, q)
    ensures CheapestOffer(ps, q, returnType).Ok? ==> CheapestOffer(ps, q, returnType).value.Some?
    ensures MostExpensiveOffer(ps, q, returnType).Ok? ==> MostExpensiveOffer(ps, q, returnType).value.Some?
  {
    PriceToShopEmpty(ps, q);
  }

  /** The cheapest price is the price of a matching part and at most the
      price of every matching part. */
  lemma CheapestPriceIsLeast(ps: seq<Part>, q: string)
    requires CheapestOffer(ps, q, "price").Ok?
    ensures CheapestOffer(ps, q, "price").value.Some?
    ensures exists i :: (0 <= i < |ps| && Matches(ps[i], q)
      && ps[i].price == CheapestOffer(ps, q, "price").value.value)
    ensures forall i :: 0 <= i < |ps| && Matches(ps[i], q) ==>
      StrLe(CheapestOffer(ps, q, "price").value.value, ps[i].price)
  {
    var d := PriceToShop(ps, q);
    var m := MinOf(d.keys);
    PriceToShopKeys(ps, q, m);
    forall i | 0 <= i < |ps| && Matches(ps[i], q) ensures StrLe(m, ps[i].price) {
      PriceToShopKeys(ps, q, ps[i].price);
    }
  }

  /** The most expensive price is the price of a matching part and at least
      the price of every matching part. */
  lemma MostExpensivePriceIsGreatest(ps: seq<Part>, q: string)
    requires MostExpensiveOffer(ps, q, "price").Ok?
    ensures MostExpensiveOffer(ps, q, "price").value.Some?
    ensures exists i :: (0 <= i < |ps| && Matches(ps[i], q)
      && ps[i].price == MostExpensiveOffer(ps, q, "price").value.value)
    ensures forall i :: 0 <= i < |ps| && Matches(ps[i], q) ==>
      StrLe(ps[i].price, MostExpensiveOffer(ps, q, "price").value.value)
  {
    var d := PriceToShop(ps, q);
    var m := MaxOf(d.keys);
    PriceToShopKeys(ps, q, m);
    forall i | 0 <= i < |ps| && Matches(ps[i], q) ensures StrLe(ps[i].price, m) {
      PriceToShopKeys(ps, q, ps[i].price);
    }
  }

  /** For one query the cheapest price is at most the most expensive one. */
  lemma CheapestAtMostMostExpensive(ps: seq<Part>, q: string)
    requires AnyMatch(ps, q)
    ensures CheapestOffer(ps, q, "price").Ok? && MostExpensiveOffer(ps, q, "price").Ok?
    ensures StrLe(CheapestOffer(ps, q, "price").value.value, MostExpensiveOffer(ps, q, "price").value.value)
  {
    PriceToShopEmpty(ps, q);
    MinAtMostMax(PriceToShop(ps, q).keys);
  }

  /** The shop `extreme` is attributed to: the shop of the last matching part
      whose price is `extreme`. */
  predicate ShopOfLastAt(ps: seq<Part>, q: string, extreme: string, shop: string)
  {
    exists j :: 0 <= j < |ps| && Matches(ps[j], q) && ps[j].price == extreme && ps[j].shop == shop
      && forall l :: j < l < |ps| ==> !(Matches(ps[l], q) && ps[l].price == extreme)
  }

  /** Ties at the cheapest price go to the last matching part at that price. */
  lemma CheapestShopIsLastAtLeast(ps: seq<Part>, q: string)
    requires CheapestOffer(ps, q, "shop").Ok?
    ensures CheapestOffer(ps, q, "price").Ok? && CheapestOffer(ps, q, "shop").value.Some?
    ensures ShopOfLastAt(ps, q, CheapestOffer(ps, q, "price").value.value,
                         CheapestOffer(ps, q, "shop").value.value)
  {
    var d := PriceToShop(ps, q);
    var m := MinOf(d.keys);
    PriceToShopKeys(ps, q, m);
    var i :| 0 <= i < |ps| && Matches(ps[i], q) && ps[i].price == m;
    PriceToShopLastWins(ps, q, i);
  }

  /** Ties at the greatest price go to the last matching part at that price. */
  lemma MostExpensiveShopIsLastAtGreatest(ps: seq<Part>, q: string)
    requires MostExpensiveOffer(ps, q, "shop").Ok?
    ensures MostExpensiveOffer(ps, q, "price").Ok? && MostExpensiveOffer(ps, q, "shop").value.Some?
    ensures ShopOfLastAt(ps, q, MostExpensiveOffer(ps, q, "price").value.value,
                         MostExpensiveOffer(ps, q, "shop").value.value)
  {
    var d := PriceToShop(ps, q);
    var m := MaxOf(d.keys);
    PriceToShopKeys(ps, q, m);
    var i :| 0 <= i < |ps| && Matches(ps[i], q) && ps[i].price == m;
    PriceToShopLastWins(ps, q, i);
  }
}
