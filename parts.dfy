/** The `Part` record of model/modules/parts.py: one offer as read from a
    page, every field kept as the text it was scraped as. */
module Parts {
  import opened Common

  /** The name is `None` when the page reader cannot resolve a product id
      (`dict.get` of an unknown id); every other field is a string. */
  datatype Part = Part(
    name: Option<string>,
    shop: string,
    priceFormat: string,
    price: string,
    value: string,
    penny: string)

  /** The keyword parameters of `Part.__init__`; all of them are required. */
  const Parameters: set<string> := {"name", "shop", "price_format", "price", "value", "penny"}

  /** The keywords page_readers.py passes at model/modules/page_readers.py:182-192. */
  const PageReaderKeywords: set<string> :=
    {"name", "price", "brand", "category", "part_id", "shop", "price_format", "value", "penny"}

  /** `Part(**kwargs)` where `keywords` are the names passed: Python rejects a
      missing or an unexpected keyword with a TypeError before the body runs;
      otherwise every argument is stored as given (the price stays a string). */
  function New(keywords: set<string>, name: Option<string>, shop: string, priceFormat: string,
               price: string, value: string, penny: string): (r: Result<Part>)
    ensures r.Err? <==> keywords != Parameters
    ensures r.Err? ==> r.error == TypeError
    ensures r.Ok? ==> (r.value.name == name && r.value.shop == shop
                       && r.value.priceFormat == priceFormat && r.value.price == price
                       && r.value.value == value && r.value.penny == penny)
  {
    if keywords == Parameters then Ok(Part(name, shop, priceFormat, price, value, penny))
    else Err(TypeError)
  }

  /** The call page_readers.py makes is always rejected. */
  lemma PageReaderCallRejected(name: Option<string>, shop: string, priceFormat: string,
                               price: string, value: string, penny: string)
    ensures New(PageReaderKeywords, name, shop, priceFormat, price, value, penny) == Err(TypeError)
  {
    assert "brand" in PageReaderKeywords && "brand" !in Parameters;
  }

  // ---- __repr__ ----

  /** How an f-string shows the name: `None` or the text itself. */
  function NameText(name: Option<string>): string
  {
    match name
    case None => "None"
    case Some(s) => s
  }

  /** The f-string `f"{name} / @ {shop} / @ {price}"`. */
  function Display(p: Part): string
  {
    NameText(p.name) + " / @ " + p.shop + " / @ " + p.price
  }

  /** `__repr__`: Python's `repr` of the f-string. */
  function Repr(p: Part): string
  {
    StrRepr(Display(p))
  }

  /** The quote `repr` chooses: double quotes only when the text holds a
      single quote and no double quote. */
  function QuoteFor(s: string): (q: char)
    ensures q == '\'' || q == '"'
  {
    if '\'' in s && '"' !in s then '"' else '\''
  }

  function HexDigit(d: nat): (c: char)
    requires d < 16
    ensures IsHex(c) && HexValue(c) == d
  {
    if d < 10 then ('0' as int + d) as char else ('a' as int + d - 10) as char
  }

  predicate IsHex(c: char)
  {
    ('0' <= c <= '9') || ('a' <= c <= 'f')
  }

  function HexValue(c: char): nat
    requires IsHex(c)
  {
    if c <= '9' then c as int - '0' as int else c as int - 'a' as int + 10
  }

  /** One character as `repr` writes it inside quotes `q`. */
  function EscapeChar(c: char, q: char): string
  {
    if c == q || c == '\\' then ['\\', c]
    else if c == '\t' then "\\t"
    else if c == '\n' then "\\n"
    else if c == '\r' then "\\r"
    else if c < ' ' || c == '\U{7f}' then ['\\', 'x', HexDigit(c as int / 16), HexDigit(c as int % 16)]
    else [c]
  }

  function Escape(s: string, q: char): string
  {
    if s == [] then [] else EscapeChar(s[0], q) + Escape(s[1..], q)
  }

  /** `repr(s)` for a string. */
  function StrRepr(s: string): string
  {
    var q := QuoteFor(s);
    [q] + Escape(s, q) + [q]
  }

  function Prepend(c: char, rest: Option<string>): Option<string>
  {
    match rest
    case None => None
    case Some(r) => Some([c] + r)
  }

  /** Reads the body of a Python string literal back (the escapes `repr`
      produces); `None` for text `repr` could not have produced. */
  function Unescape(t: string): Option<string>
    decreases |t|
  {
    if t == [] then Some([])
    else if t[0] != '\\' then Prepend(t[0], Unescape(t[1..]))
    else if |t| < 2 then None
    else if t[1] == 't' then Prepend('\t', Unescape(t[2..]))
    else if t[1] == 'n' then Prepend('\n', Unescape(t[2..]))
    else if t[1] == 'r' then Prepend('\r', Unescape(t[2..]))
    else if t[1] == '\\' || t[1] == '\'' || t[1] == '"' then Prepend(t[1], Unescape(t[2..]))
    else if t[1] == 'x' && |t| >= 4 && IsHex(t[2]) && IsHex(t[3]) then
      Prepend((HexValue(t[2]) * 16 + HexValue(t[3])) as char, Unescape(t[4..]))
    else None
  }

  /** Reads a quoted Python string literal back. */
  function Unquote(t: string): Option<string>
  {
    if |t| >= 2 && (t[0] == '\'' || t[0] == '"') && t[|t| - 1] == t[0] then Unescape(t[1..|t| - 1])
    else None
  }

  lemma UnescapeChar(c: char, q: char, rest: string)
    requires q == '\'' || q == '"'
    ensures Unescape(EscapeChar(c, q) + rest) == Prepend(c, Unescape(rest))
  {
    var e := EscapeChar(c, q);
    if c == q || c == '\\' || c == '\t' || c == '\n' || c == '\r' {
      assert (e + rest)[2..] == rest;
    } else if c < ' ' || c == '\U{7f}' {
      assert (e + rest)[4..] == rest;
      var hi, lo := c as int / 16, c as int % 16;
      assert HexValue(HexDigit(hi)) * 16 + HexValue(HexDigit(lo)) == c as int;
    } else {
      assert (e + rest)[1..] == rest;
    }
  }

  /** Reading back an escaped text gives the text. */
  lemma {:induction false} UnescapeEscape(s: string, q: char)
    requires q == '\'' || q == '"'
    ensures Unescape(Escape(s, q)) == Some(s)
  {
    if s != [] {
      var rest := Escape(s[1..], q);
      assert Escape(s, q) == EscapeChar(s[0], q) + rest;
      UnescapeEscape(s[1..], q);
      UnescapeChar(s[0], q, rest);
      assert [s[0]] + s[1..] == s;
    }
  }

  /** `repr` of a string reads back as that string. */
  lemma UnquoteStrRepr(s: string)
    ensures Unquote(StrRepr(s)) == Some(s)
  {
    var q := QuoteFor(s);
    var t := StrRepr(s);
    assert t[1..|t| - 1] == Escape(s, q);
    UnescapeEscape(s, q);
  }

  /** `repr(part)` is a quoted string literal that reads back as the name, the
      shop and the price, in that order, joined by " / @ ". */
  lemma ReprShowsNameShopPrice(p: Part)
    ensures Unquote(Repr(p)) == Some(NameText(p.name) + " / @ " + p.shop + " / @ " + p.price)
  {
    UnquoteStrRepr(Display(p));
  }
}
