/** The HTML of a Ceneo summary page, reduced to what the readers look at.
    A summary page is a sequence of `td` cells: a product cell holds an
    `input` (whose `value` is the product id) and an `img` whose `alt` is the
    product name; an offer cell has a CSS class naming its shop column and a
    list of `span`s, each a (first CSS class, text) pair. */
module Tags {
  import opened Common
  import opened Parts

  datatype Span = Span(cls: string, text: string)

  /** The cell's `a["data-productid"]` as `int(...)` reads it: absent (no `a`
      or no such attribute, caught as TypeError/KeyError and read as None),
      an integer, or text `int` rejects, which raises ValueError. */
  datatype ProductId = NoId | IntId(id: int) | NotInt

  datatype Tag = Tag(
    cls: string,                 // tag["class"][0]
    hasInput: bool,              // bool(tag.find("input"))
    inputValue: Option<int>,     // int(input["value"]), None when that is not an integer
    imgAlt: Option<string>,      // tag.find("img", alt=True)["alt"], None when there is no such img
    productId: ProductId,        // int(a["data-productid"])
    brand: Option<string>,       // a["data-brand"], None when absent
    category: Option<string>,    // a["data-gacategoryname"], None when absent
    spans: seq<Span>)            // tag.find_all("span")

  /** `[span["class"][0] for span in tag.find_all("span")]` */
  function SpanKeys(t: Tag): (ks: seq<string>)
    ensures |ks| == |t.spans|
    ensures forall i :: 0 <= i < |ks| ==> ks[i] == t.spans[i].cls
  {
    seq(|t.spans|, i requires 0 <= i < |t.spans| => t.spans[i].cls)
  }

  /** `[span.text for span in tag.find_all("span")]` */
  function SpanValues(t: Tag): (vs: seq<string>)
    ensures |vs| == |t.spans|
    ensures forall i :: 0 <= i < |vs| ==> vs[i] == t.spans[i].text
  {
    seq(|t.spans|, i requires 0 <= i < |t.spans| => t.spans[i].text)
  }

  /** `dict(zip(ks, vs))`: pairs by position up to the shorter list; a key
      that occurs again is overwritten by its later value. */
  function ZipDict(ks: seq<string>, vs: seq<string>): map<string, string>
    decreases |ks|
  {
    var n := if |ks| < |vs| then |ks| else |vs|;
    if n == 0 then map[]
    else ZipDict(ks[..n - 1], vs[..n - 1])[ks[n - 1] := vs[n - 1]]
  }

  /** A key is in the zipped dict iff it occurs (within the paired prefix),
      and its value is the one paired with its LAST occurrence. */
  lemma {:induction false} ZipDictLastWins(ks: seq<string>, vs: seq<string>, k: string)
    requires |ks| == |vs|
    ensures k in ZipDict(ks, vs) <==> k in ks
    ensures k in ZipDict(ks, vs) ==>
      exists i :: 0 <= i < |ks| && ks[i] == k && ZipDict(ks, vs)[k] == vs[i]
        && forall j :: i < j < |ks| ==> ks[j] != k
  {
    if |ks| > 0 {
      var n := |ks|;
      var pk, pv := ks[..n - 1], vs[..n - 1];
      ZipDictLastWins(pk, pv, k);
      assert ks == pk + [ks[n - 1]];
      if k in ZipDict(ks, vs) && ks[n - 1] != k {
        var i :| 0 <= i < n - 1 && pk[i] == k && ZipDict(pk, pv)[k] == pv[i]
          && forall j :: i < j < n - 1 ==> pk[j] != k;
        assert ks[i] == k && ZipDict(ks, vs)[k] == vs[i];
        assert forall j :: i < j < n ==> ks[j] != k by {
          forall j | i < j < n ensures ks[j] != k {
            if j < n - 1 { assert pk[j] == ks[j]; }
          }
        }
      }
    }
  }

  /** The span classes an offer cell must carry for a Part to be made. */
  const RequiredSpans: set<string> := {"offer-shop-domain", "price-format", "price", "value", "penny"}

  /** `Part(name=name, shop=d["offer-shop-domain"], price_format=d["price-format"],
      price=d["price"], value=d["value"], penny=d["penny"], ...)` with
      `d = dict(zip(ks, vs))` and `keywords` the keyword names the call
      passes. The subscripts are evaluated before the call, so a missing span
      class is a KeyError whatever the keywords. */
  function PartFromSpans(keywords: set<string>, name: Option<string>, ks: seq<string>, vs: seq<string>): (r: Result<Part>)
    ensures r.Err? <==> !(RequiredSpans <= ZipDict(ks, vs).Keys) || keywords != Parameters
    ensures !(RequiredSpans <= ZipDict(ks, vs).Keys) ==> r == Err(KeyError)
    ensures RequiredSpans <= ZipDict(ks, vs).Keys && keywords != Parameters ==> r == Err(TypeError)
    ensures r.Ok? ==> (r.value.name == name && r.value.price == ZipDict(ks, vs)["price"]
                       && r.value.shop == ZipDict(ks, vs)["offer-shop-domain"]
                       && r.value.priceFormat == ZipDict(ks, vs)["price-format"]
                       && r.value.value == ZipDict(ks, vs)["value"]
                       && r.value.penny == ZipDict(ks, vs)["penny"])
  {
    var d := ZipDict(ks, vs);
    if !(RequiredSpans <= d.Keys) then Err(KeyError)
    else Parts.New(keywords, name, d["offer-shop-domain"], d["price-format"], d["price"], d["value"], d["penny"])
  }
}
