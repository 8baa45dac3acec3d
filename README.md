# Ceneo price tracker: a verified model of the scraping core

This project models, in Dafny, the deterministic core of the Ceneo price
scraper (Python). The core turns a Ceneo summary page into baskets of offers
and answers "cheapest" and "most expensive" queries over them. It also runs a
batch of summary URLs and joins their tables.

HTML is abstracted to `Tags.Tag`. A `td` cell is reduced to:
- its first CSS class;
- whether it holds an `input`, and that input's `value` parsed to an integer;
- the `alt` of its `img`;
- the `data-productid`, `data-brand` and `data-gacategoryname` of its `a`;
- its `span`s, each a (first class, text) pair.

Pure logic is written as functions and lemmas. Objects whose fields the
Python code changes are Dafny classes with `modifies` frames.

| module | file | what it models |
|---|---|---|
| `Common`, `Dicts`, `Strings` | common.dfy, dicts.dfy, strings.dfy | Python's exceptions, `None` and `set.add`. Dicts keep their key order. Str comparison, `min`/`max`, `strip`, `split(..)[0]` and `f"{i}"`. |
| `Parts` | parts.dfy | The `Part` record: its keyword-checked constructor and `__repr__`, including Python's `repr` quoting. |
| `Baskets` | baskets.dfy | The `Basket` class: the constructor and `add_part`. |
| `Tags` | tags.dfy | The abstract cell, `dict(zip(keys, values))` and building a `Part` from the spans. |
| `Pages` | pages.dfy | The logic that summaries.py, scraping.py and page_readers.py share: collecting products, chunking the cells, making baskets and routing offers. Each step is a specification function plus the method proved against it. |
| `Summaries` | summaries.dfy | `CeneoSummaryPage` of summaries.py, whose state belongs to the instance. |
| `Scraping` | scraping.dfy | `CeneoSummaryPage` of scraping.py. Its product set is one object shared by every instance. |
| `Offers` | offers.dfy | The price-to-shop map and the two offer finders. |
| `PageReaders` | page_readers.dfy | The category-URL and marker helpers, `parse_products` with its inversion, the reader's `fill_baskets`, the derived columns and `CeneoSummaryPageReader`. |
| `Scrapers` | scrapers.dfy | `CeneoScraper`: `read_summary`, `run` and `_make_result_df`. |

Modelling choices:
- Python sets (products, basket names) iterate in insertion order here.
- Prices stay raw strings and are compared in Python's code-point order (`Strings.StrLe`).
- An exception is an `Error` value. A method that stops at the first exception returns it, together with the state reached so far.
- The code reads the summary URLs one after another, with no worker pool and nothing concurrent.
- Prices are never converted to numbers; they are compared as strings.
- When several shops share a price, the shop written last into the price-to-shop map is the one reported.
- A batch run records no completeness status and no list of failures.
- A batch run can end early: an invalid URL raises AssertionError out of `read_summary`, because the reader is built before its `try`.

## Model

| member | source | states |
|---|---|---|
| Common.AddToSet | model/modules/summaries.py:32 | `set.add`: the result holds exactly the old elements and the new one, each once, and the old ones keep their order in front. |
| Dicts.Dict.Put | model/modules/page_readers.py:107 | `d[k] = v`: only `k`'s value changes. An existing key keeps its place in the order; a new key goes last. |
| Dicts.FromKeys | model/modules/summaries.py:37 | `dict.fromkeys(ks)`: the keys are `ks` in order, and each maps to the given value. |
| Strings.MinOf | model/modules/page_readers.py:228-230 | Python's `min` of a non-empty key list: the result is one of the keys and is at most every key in str order. |
| Strings.MaxOf | model/modules/page_readers.py:210-212 | Python's `max`: the result is one of the keys and is at least every key. |
| Strings.StrLeTotal | model/modules/page_readers.py:228 | Str order is total, so `min` and `max` are defined on any list of price strings. |
| Strings.StrLeTransitive | model/modules/page_readers.py:228 | Str order is transitive. |
| Strings.ParseNatToString | model/modules/page_readers.py:54 | The decimal text `f"{i}"` reads back as `i`. |
| Strings.StripLeft | model/modules/page_readers.py:95 | The left half of `strip()`: every dropped character is whitespace and the result does not start with whitespace. |
| Strings.StripLeftIsSuffix | model/modules/page_readers.py:95 | The left half of `strip()` keeps a suffix of the text. |
| Strings.StripRight | model/modules/page_readers.py:95 | The right half of `strip()`: every dropped character is whitespace and the result does not end with whitespace. |
| Strings.StripRightIsPrefix | model/modules/page_readers.py:95 | The right half of `strip()` keeps a prefix of the text. |
| Strings.Strip | model/modules/page_readers.py:95 | `strip()`: the result neither starts nor ends with whitespace. |
| Strings.StripIsSlice | model/modules/page_readers.py:95 | `strip()` gives the slice of the text that starts after its leading whitespace. |
| Strings.BeforeFirst | model/modules/page_readers.py:95 | `split("-")[0]`: the result is the longest prefix without a dash; a dash follows it unless it is the whole text. |
| Strings.StripPrefix | model/modules/page_readers.py:95 | Stripping a dash-free prefix of the title text gives the slice of the text after the prefix's leading whitespace, with no dash in it. |
| Parts.New | model/modules/parts.py:2-8 | The constructor raises TypeError exactly when the keywords passed are not the six declared. Otherwise it stores all six arguments verbatim; the price stays a string. |
| Parts.PageReaderCallRejected | model/modules/parts.py:2 | The nine-keyword call of the page reader (`brand`, `category`, `part_id` extra) always raises TypeError. |
| Parts.UnescapeEscape | model/modules/parts.py:11 | The escaping `repr` applies reads back to the original text, for either quote. |
| Parts.UnquoteStrRepr | model/modules/parts.py:11 | `repr` of any string is a quoted literal that reads back as that string. |
| Parts.ReprShowsNameShopPrice | model/modules/parts.py:10-11 | `repr(part)` reads back as name, shop and price, in that order, joined by " / @ ". |
| Baskets.Basket.constructor | model/modules/baskets.py:5-7 | A new basket has the given name and no parts. |
| Baskets.Basket.AddPart | model/modules/baskets.py:9-10 | Appends exactly the given part at the end and leaves the name alone. |
| Baskets.AddPartTwice | model/modules/baskets.py:10 | No deduplication: adding one part twice leaves two copies, in order. |
| Tags.ZipDictLastWins | model/modules/summaries.py:71 | `dict(zip(ks, vs))` has exactly the keys of `ks`; each maps to the value paired with its last occurrence. |
| Tags.PartFromSpans | model/modules/summaries.py:71-79 | Fails exactly when a required span class is missing or the keywords are wrong. A missing class is KeyError, raised before the call whatever the keywords; with all classes present, wrong keywords are TypeError. On success the part has the given name, and its shop, price format, price, value and penny are the texts of the spans of those classes. |
| Pages.AddProducts | model/modules/summaries.py:27-32 | The product set only grows: earlier names keep their place and nothing repeats. |
| Pages.AddProductsExact | model/modules/summaries.py:27-32 | The scan fails iff some cell with an `input` has no `img`. Otherwise the set is the earlier names plus the alt of every such cell. |
| Pages.AddProductsFails | model/modules/summaries.py:27-32 | The scan fails iff some cell with an `input` has no `img`. |
| Pages.AddProductsMembers | model/modules/summaries.py:27-32 | Without a failure, a name is in the set iff it was there before or is the alt of some cell with an `input`. |
| Pages.ReadProducts | model/modules/summaries.py:27-32 | The loop computes `AddProducts`, including where it stops. |
| Pages.BasketNames | model/modules/summaries.py:50-56 | The basket names are distinct and are exactly the first classes of the cells without an `input`. |
| Pages.MakeBaskets | model/modules/summaries.py:50-58 | One new basket per such name, in name order. Each basket is empty and carries its key as its name. |
| Pages.CollectBasketNames | model/modules/summaries.py:51-56 | The loop over the cells computes `BasketNames`. |
| Pages.NewBaskets | model/modules/summaries.py:58 | The dict comprehension: one new, empty basket per name, keyed by that name, in name order. |
| Pages.ReadBasketTag | model/modules/summaries.py:60-64 | The basket name is the cell's class. Keys and values have equal length and are paired by span position. |
| Pages.Chunks | model/modules/summaries.py:41-42 | Every chunk is non-empty and at most `n` long. |
| Pages.ChunksConcat | model/modules/summaries.py:41-42 | The chunks, put back together, are the cells. |
| Pages.ChunkAt | model/modules/summaries.py:41-42 | Chunk `k` is `tags[k*n : k*n + n]`, cut at the end of the cells. |
| Pages.LookupOf | model/modules/summaries.py:37-46 | A successful lookup is a well-formed dict that holds every product. |
| Pages.SliceTags | model/modules/summaries.py:34-48 | The slicing loop computes the lookup specification. With no products it is ValueError (range step 0). |
| Pages.LookupKeys | model/modules/summaries.py:37-46 | The lookup's keys are the products plus the names that head a chunk. |
| Pages.LookupUnheaded | model/modules/summaries.py:37 | A product that heads no chunk keeps `None`. |
| Pages.LookupLastChunkWins | model/modules/summaries.py:46 | A name heading several chunks maps to the rest of the last of them: a chunk that no later chunk's head shares maps its head name to its other cells. |
| Pages.LookupStopped | model/modules/summaries.py:44 | A chunk head without an `img` ends the slicing with TypeError. |
| Pages.AddOffer | model/modules/summaries.py:69-82 | When a cell raises, no basket changes. |
| Pages.AddOfferRoutes | model/modules/summaries.py:69-82 | A cell passes iff it has no spans, or it yields a part and names an existing basket. Then every basket grows by exactly what the cell routes to it. |
| Pages.FillPairsRoutes | model/modules/summaries.py:68-82 | Filling a list of cells succeeds iff every cell passes. Then every basket keeps its keys and ends with its old parts followed by exactly the parts routed to it, in cell order. |
| Pages.RoutedFrom | model/modules/summaries.py:69-82 | Every routed part comes from a span-bearing cell of that basket's class, and carries that cell's product name. |
| Pages.RoutedElsewhere | model/modules/summaries.py:82 | A basket that no span-bearing cell names receives nothing. |
| Pages.FillPairsStopped | model/modules/summaries.py:68-82 | After a cell raises, later cells change nothing. |
| Pages.AddToBasket | model/modules/summaries.py:82 | `baskets[name].add_part(part)`: only that basket grows, by that part. Every basket keeps its name. |
| Pages.AddOfferTo | model/modules/summaries.py:69-82 | The loop body on the baskets does what `AddOffer` specifies. Every basket keeps its name. |
| Pages.FillOffers | model/modules/summaries.py:68-82 | The inner loop on the baskets does what `FillPairs` specifies. Every basket keeps its name. |
| Pages.FillFromLookup | model/modules/summaries.py:66-82 | The nested loop does what `FillLookup` specifies, product by product in lookup order. Every basket keeps its name. |
| Pages.FillLookupStopped | model/modules/summaries.py:66-82 | After a product's filling raises, later products change nothing. |
| Pages.FillLookupRoutes | model/modules/summaries.py:66-82 | The filling succeeds iff no product is still `None` and every offer cell passes. Then each basket holds exactly the parts routed to it, product by product. |
| Pages.Pipeline | model/modules/summaries.py:93-98 | Reading, slicing, making baskets and filling: the products only grow, and a successful slice gives a well-formed lookup. |
| Pages.PipelineNoProducts | model/modules/summaries.py:38-41 | A page with no product cell and no earlier products stops at slicing with ValueError. |
| Pages.PipelineRoutes | model/modules/summaries.py:93-98 | The four steps succeed iff products can be read and sliced and every product's cells fill in. Then there is one basket per distinct class, holding exactly its routed parts. |
| Summaries.SummaryPage.constructor | model/modules/summaries.py:13-17 | No page, no products, no lookup, no baskets. |
| Summaries.SummaryPage.ParsePage | model/modules/summaries.py:22-25 | Only a successful fetch sets the page. |
| Summaries.SummaryPage.ParseProducts | model/modules/summaries.py:27-32 | Without a page: AttributeError. Otherwise the product set becomes `AddProducts` of the old one. |
| Summaries.SummaryPage.SliceProductBasketTags | model/modules/summaries.py:34-48 | The lookup is set to the slice result only when slicing succeeds; otherwise the exception is returned. |
| Summaries.SummaryPage.MakeBaskets | model/modules/summaries.py:50-58 | Rebinds the baskets to new, empty baskets, one per distinct class. |
| Summaries.SummaryPage.FillBaskets | model/modules/summaries.py:66-82 | Without a lookup: AttributeError and no basket changes. Otherwise the baskets end as `FillLookup` of their old parts. Every basket keeps its name. |
| Summaries.SummaryPage.Make | model/modules/summaries.py:93-98 | The steps in order, stopping at the first exception. Products and error are as `Pipeline` gives from the old products. Without any page: AttributeError and nothing else changes. When slicing fails, the lookup and baskets are left as they were. Otherwise the lookup, basket names and parts are as `Pipeline` gives, and each basket is named by its key. |
| Scraping.SharedProducts.constructor | model/modules/scraping.py:7 | The class-level set starts empty. |
| Scraping.ScrapingPage.constructor | model/modules/scraping.py:9-10 | An instance refers to the shared set and has no page, lookup or baskets of its own. |
| Scraping.ScrapingPage.ParsePage | model/modules/scraping.py:15-19 | Only a successful fetch sets the page. |
| Scraping.ScrapingPage.ReadProducts | model/modules/scraping.py:21-26 | Adds to the shared set, which keeps the names of earlier pages. |
| Scraping.ScrapingPage.MakeBaskets | model/modules/scraping.py:28-36 | Rebinds the instance's baskets to new, empty ones, one per distinct class. |
| Scraping.ScrapingPage.SliceProductBasketTags | model/modules/scraping.py:38-52 | Slices with chunks as long as the shared set is large. |
| Scraping.ScrapingPage.FillBaskets | model/modules/scraping.py:60-79 | Reads products, slices, makes baskets and fills them, in that order. Without a page: AttributeError, and the shared set, lookup and baskets are unchanged. When slicing fails, the lookup and baskets are left as they were. Otherwise everything is as `Pipeline` gives from the shared set's old contents, and each basket is named by its key. |
| Scraping.FillTwoPages | model/modules/scraping.py:7-8 | A second instance starts from the products the first one left in the shared set. |
| Scraping.LeakWidensChunks | model/modules/scraping.py:41-45 | A leftover name that this page does not show makes the chunks longer than a fresh set would. |
| Scraping.UnnamedKeepsNone | model/modules/scraping.py:41-50 | A product named by no cell of the page keeps `None` in the lookup. |
| Scraping.LeakedProductBreaksFill | model/modules/scraping.py:41-65 | If the shared set holds a name that no cell of this page shows, `fill_baskets` on this page always raises. |
| Offers.PriceToShop | model/modules/page_readers.py:221-225 | The price-to-shop map is a well-formed dict. |
| Offers.PutMatching | model/modules/page_readers.py:223-225 | The loop over one basket's parts extends the map exactly as `PriceToShop` does over those parts. |
| Offers.PriceToShopKeys | model/modules/page_readers.py:221-225 | Its keys are exactly the prices of the parts named after the query. |
| Offers.PriceToShopLastWins | model/modules/page_readers.py:225 | Under each price sits the shop of the last matching part with that price. |
| Offers.PriceToShopEmpty | model/modules/page_readers.py:221-225 | The map is empty iff no part matches. |
| Offers.CheapestOffer | model/modules/page_readers.py:227-230 | Any return type but "shop" or "price" gives None; the only exception is ValueError. |
| Offers.MostExpensiveOffer | model/modules/page_readers.py:209-212 | Any return type but "shop" or "price" gives None; the only exception is ValueError. |
| Offers.FindersFailIffNoMatch | model/modules/page_readers.py:209-230 | For "shop" and "price", both finders fail iff no part matches; otherwise they return a value. |
| Offers.CheapestPriceIsLeast | model/modules/page_readers.py:221-230 | The cheapest price is some matching part's price and at most every matching part's price. |
| Offers.MostExpensivePriceIsGreatest | model/modules/page_readers.py:203-212 | The most expensive price is some matching part's price and at least every matching part's price. |
| Offers.CheapestAtMostMostExpensive | model/modules/page_readers.py:196-230 | For one query, the cheapest price is at most the most expensive one. |
| Offers.CheapestShopIsLastAtLeast | model/modules/page_readers.py:225-228 | The cheapest shop is the shop of the last matching part at the cheapest price, in basket-then-part order. |
| Offers.MostExpensiveShopIsLastAtGreatest | model/modules/page_readers.py:207-210 | The most expensive shop is the shop of the last matching part at the greatest price. |
| PageReaders.GenerateCategoryUrls | model/modules/page_readers.py:53-56 | Fails iff n ≤ 0 (an empty `range`), with IndexError from `urls[0] = base_url`. Otherwise there are n URLs and the first is the base. |
| PageReaders.PageNumberOfCategoryUrl | model/modules/page_readers.py:54 | The template URL for page i names page i. |
| PageReaders.CategoryUrlsNumbered | model/modules/page_readers.py:54-55 | Each URL at index i ≥ 1 is the template with page number i. |
| PageReaders.FindStartingTag | model/modules/page_readers.py:58-61 | The first tag holding the marker decides: the result is the next index and the tag there. No marker gives None. A marker only in the last tag raises IndexError. |
| PageReaders.FindProductTags | model/modules/page_readers.py:63-66 | The suffix after the first marker. No marker gives TypeError (`None[0]`); a marker only at the end gives IndexError. |
| PageReaders.NameToId | model/modules/page_readers.py:101-107 | The name-to-id loop: a well-formed dict, or TypeError/ValueError. |
| PageReaders.NameToIdFails | model/modules/page_readers.py:104-106 | It fails iff some product cell lacks an `img` or an integer value. |
| PageReaders.NameToIdKeys | model/modules/page_readers.py:101-107 | Its names are exactly the alts of the product cells. |
| PageReaders.NameToIdLastWins | model/modules/page_readers.py:107 | A repeated name keeps the id of its last cell: a product cell whose alt no later product cell shares gives that alt its own value. |
| PageReaders.InvertKeys | model/modules/page_readers.py:108-110 | The inversion is a well-formed dict. |
| PageReaders.InvertKeysSound | model/modules/page_readers.py:108-110 | Every inverted entry points back: `name_to_id[id_to_name[id]] == id`. The ids are exactly the values. |
| PageReaders.InvertKeysExact | model/modules/page_readers.py:108-110 | With distinct ids, each name is found again under its id. |
| PageReaders.InvertIsInverse | model/modules/page_readers.py:108-110 | The two lookups agree entry by entry, and are exact inverses when the ids are distinct. |
| PageReaders.NameToIdStopped | model/modules/page_readers.py:104-106 | After a product cell raises, later cells change nothing. |
| PageReaders.ParseProducts | model/modules/page_readers.py:97-111 | The loop computes `NameToId` and its inversion, or the exception. |
| PageReaders.ReaderOffers | model/modules/page_readers.py:166-180 | Hands on only cells without an `input`. Each gets the name `part_id_to_name.get(id)`, which is None for a missing or unknown id. |
| PageReaders.ReaderOffersComplete | model/modules/page_readers.py:168-169 | Every cell without an `input` is handed on. |
| PageReaders.ReaderOffersSound | model/modules/page_readers.py:168-169 | Every cell handed on is a cell of the page without an `input`. |
| PageReaders.InputFreeCells | model/modules/page_readers.py:168 | The positions of the cells without an `input`: in range, strictly increasing, and none left out. |
| PageReaders.ReaderOffersInOrder | model/modules/page_readers.py:168-180 | The cells handed on are exactly the cells without an `input`, one each, in page order. |
| PageReaders.ReaderFillIsFillPairs | model/modules/page_readers.py:166-194 | When no id is malformed, the reader's filling is the shared loop body run over the cells handed on. |
| PageReaders.ReaderFillStopped | model/modules/page_readers.py:169-194 | After a cell raises, later cells change nothing. |
| PageReaders.ReaderFillMalformedId | model/modules/page_readers.py:133-138 | A cell without an `input` whose `data-productid` is not an integer ends the filling: `int` raises ValueError, which the `except (TypeError, KeyError)` does not catch, whether or not the cell has spans. |
| PageReaders.ReaderPairsSucceed | model/modules/page_readers.py:178-194 | With the six declared keywords, the shared loop over the cells handed on fails iff some span-bearing one lacks a required span class; otherwise each basket grows by exactly its routed parts. |
| PageReaders.ReaderFillSucceeds | model/modules/page_readers.py:162-194 | With the constructor's own six keywords, over baskets that include every one `make_baskets` creates: the filling fails iff some cell without an `input` has a malformed id, or has spans but lacks a required span class. Otherwise every basket keeps its key and grows by exactly its routed parts. |
| PageReaders.ReaderRoutedParts | model/modules/page_readers.py:178-194 | Each routed part comes from a span-bearing cell of that basket's class. Its name is the id's looked-up name; its shop and price come from the spans. |
| PageReaders.FillBasketsAsWrittenFails | model/modules/page_readers.py:133-192 | As written, no basket ever receives a part. The filling fails iff some cell without an `input` has spans or a malformed id. The error is ValueError for the id, KeyError for a missing span class, and otherwise TypeError. |
| PageReaders.Derive | model/modules/page_readers.py:238-251 | One derived row: the four finder results for the key, plus the run's timestamp and title. |
| PageReaders.EnhanceRows | model/modules/page_readers.py:232-252 | Succeeds iff every index key matches some part (otherwise ValueError). Then there is one derived row per key, in order. |
| PageReaders.EnhancedRowsOrdered | model/modules/page_readers.py:232-252 | Each row's cheapest offer is at most every matching price, which is at most its most expensive offer. Every row shares one timestamp and title. |
| PageReaders.TitleOf | model/modules/page_readers.py:92-95 | A page without a `title` element raises AttributeError; otherwise a title is returned. |
| PageReaders.TitleIsSlice | model/modules/page_readers.py:95 | The title is a contiguous piece of the title text, taken from before its first "-". |
| PageReaders.TitleNoDash | model/modules/page_readers.py:95 | The title holds no "-". |
| PageReaders.SummaryPageReader.constructor | model/modules/page_readers.py:85-90 | No timestamp, no baskets, empty lookups. |
| PageReaders.SummaryPageReader.PriceLookup | model/modules/page_readers.py:221-225 | The nested loops over baskets and parts build `PriceToShop` of all parts. |
| PageReaders.SummaryPageReader.FindCheapestOffer | model/modules/page_readers.py:214-230 | Returns `CheapestOffer` of all the baskets' parts. |
| PageReaders.SummaryPageReader.FindMostExpensiveOffer | model/modules/page_readers.py:196-212 | Returns `MostExpensiveOffer` of all the baskets' parts. |
| PageReaders.SummaryPageReader.FillBaskets | model/modules/page_readers.py:162-194 | For the keyword names of the `Part` call (the nine as written, or the six declared): without a page, AttributeError and no basket changes; otherwise the baskets end as `ReaderFill` of their old parts. Every basket keeps its name. |
| PageReaders.SummaryPageReader.ReadCells | model/modules/page_readers.py:288-292 | For either keyword set: when `parse_products` raises, the exception is returned and neither lookup nor the baskets change. Otherwise it sets both lookups, makes new baskets for the page, each named by its key, and fills them as `ReaderFill` gives. |
| PageReaders.SummaryPageReader.MakeAndFill | model/modules/page_readers.py:291-292 | New baskets, one per distinct class and named by it, then filled as `ReaderFill` gives for the keywords passed. The page, title, timestamp and lookups are unchanged. |
| PageReaders.SummaryPageReader.ReadSummary | model/modules/page_readers.py:280-292 | Fetch, then title, then a timestamp from the given clock value, then the cells, for either keyword set. A failed fetch or a page without a title is AttributeError, and every field but the page is left as it was. A `parse_products` failure leaves the lookups and baskets as they were. Otherwise the lookups, baskets and error are as `NameToId` and `ReaderFill` give. |
| Scrapers.SortByTimeSorted | model/modules/scrapers.py:27 | Sorting orders the rows by timestamp and is a permutation of them. |
| Scrapers.InsertSorted | model/modules/scrapers.py:27 | Inserting one row keeps rows sorted. |
| Scrapers.InsertPermutes | model/modules/scrapers.py:27 | Inserting adds exactly that row. |
| Scrapers.MakeResult | model/modules/scrapers.py:26-28 | No tables: ValueError. Tables without columns only: KeyError (no `timestamp`). Otherwise one table. |
| Scrapers.MakeResultRows | model/modules/scrapers.py:26-28 | The result holds every row of every table, as a multiset, ordered by nondecreasing timestamp. |
| Scrapers.Scraper.constructor | model/modules/scrapers.py:11-16 | The summaries are kept and there are no tables yet. |
| Scrapers.Scraper.ReadSummary | model/modules/scrapers.py:18-24 | A failed read becomes an empty table. An invalid URL raises AssertionError, because the reader is built before the `try`. |
| Scrapers.Scraper.ReadAllTables | model/modules/scrapers.py:31-38 | The run goes through iff every URL is valid. Then there is exactly one table per URL, in list order, and a failed page does not stop later ones. |
| Scrapers.Scraper.ReadAllStopsAtInvalid | model/modules/scrapers.py:18-38 | An invalid URL ends the run with AssertionError, after one table per earlier URL. |
| Scrapers.Scraper.ReadAllStopped | model/modules/scrapers.py:31-38 | After an exception escapes, later URLs are not read. |
| Scrapers.Scraper.Run | model/modules/scrapers.py:30-43 | Appends one table per URL of the list, or one for a single URL, or none; `dfs` is never reset. The result table is set only when `_make_result_df` succeeds. |

## Left out

- HTTP fetching, BeautifulSoup parsing and `validators.url`. A fetch is a parameter (`Option` of the parsed page), and URL validity is a function parameter of `Scrapers.Scraper`. The summary-page constructors' URL assertion is not modelled.
- `make_df`/`_make_df` (page_readers.py, summaries.py): they need `Basket.make_df`, which model/modules/baskets.py does not define, and pandas' outer join. Only the per-key derived columns of `_enhance_df` are modelled (`PageReaders.EnhanceRows`), on an index given as input. The reader's table is therefore a parameter of `Scrapers.Scraper`.
- `datetime.now()`: the timestamp is an integer argument of `ReadSummary`.
- `CeneoCategoryReader.read_page_product_tags` (returns nothing, marked TODO), `read` and `_find_n_category_pages`, which are HTML plumbing.
- `show`, `display_baskets`, `tqdm`, logging, run_scrapers.py and the output folder.
- The page reader's `make_baskets` and `read_basket_tag` are the shared `Pages.MakeBaskets` and `Pages.ReadBasketTag`. The `try`/`except` around the `data-productid`, `data-brand` and `data-gacategoryname` reads is folded into the `Tag` fields. A missing `a` or attribute is `None` (`Tags.NoId` for the id). A `data-productid` that `int` rejects is `Tags.NotInt`, and the filling raises ValueError on it.
- A product cell whose `input` has no `value` attribute (a KeyError in Python) is treated like one whose value is not an integer (ValueError).
- A cell without a `class`, or a span without one, is not represented: every cell and span has a first class.
- Set iteration order is modelled as insertion order. Python's real order for a set of strings depends on hashing.
- Strings.Strip: only ASCII whitespace is stripped.
- Parts.StrRepr: non-ASCII characters are kept unescaped (as Python 3 does for printable ones). Python's `\x`/`\u` escapes for non-printable non-ASCII characters are not modelled.
- Scrapers.MakeResult: pandas' default sort is not stable. The model sorts stably, and its lemmas promise only sortedness and the multiset of rows.
- Scrapers.Row: the columns of a concatenated frame (the union of the tables' columns) are not modelled, only the rows and their timestamps.
- PageReaders.TitleIsSlice: states the slice and `Strings.Strip` states the ends. That the trimmed characters were whitespace is stated by `Strings.StripLeft`/`StripRight`, not restated for the title.

## Findings

| source | as written | input that shows it | evidently intended | confidence | as-written member | corrected member |
|---|---|---|---|---|---|---|
| model/modules/page_readers.py:182-192 | `fill_baskets` calls `Part(...)` with `brand`, `category` and `part_id`, which `Part.__init__` does not accept | any summary page with one offer cell that has an integer `data-productid` and carries the five required spans: the call raises TypeError and no basket receives a part | build the part from the six declared fields and add it to the cell's basket | not executed | PageReaders.FillBasketsAsWrittenFails | PageReaders.ReaderFillSucceeds |
