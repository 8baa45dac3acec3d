/** `CeneoScraper` of model/modules/scrapers.py: reads every summary URL into
    a table, swallowing the failures of reading, keeps the tables in order
    and joins them into one table sorted by timestamp. */
module Scrapers {
  import opened Common

  /** One row of a summary's table: its timestamp and its other cells. */
  datatype Row = Row(timestamp: int, cells: seq<string>)

  /** A pandas frame: `pd.DataFrame(None)` has no columns at all; a summary's
      table has a `timestamp` column and some rows. */
  datatype Table = NoColumns | Frame(rows: seq<Row>)

  /** What `ceneo_summaries` holds: a list of URLs, one URL, or anything
      else. */
  datatype Summaries = UrlList(urls: seq<string>) | Url(url: string) | Other

  /** The rows of the tables, table after table (`pd.concat`). */
  function ConcatRows(ts: seq<Table>): seq<Row>
  {
    if ts == [] then []
    else ConcatRows(ts[..|ts| - 1]) + (match ts[|ts| - 1] case NoColumns => [] case Frame(rows) => rows)
  }

  /** Some table has a `timestamp` column. */
  predicate HasColumns(ts: seq<Table>)
  {
    exists i :: 0 <= i < |ts| && ts[i].Frame?
  }

  predicate SortedByTime(rows: seq<Row>)
  {
    forall i, j :: 0 <= i < j < |rows| ==> rows[i].timestamp <= rows[j].timestamp
  }

  /** Puts `r` before the first row that is not earlier. */
  function Insert(r: Row, rows: seq<Row>): seq<Row>
  {
    if rows == [] then [r]
    else if r.timestamp <= rows[0].timestamp then [r] + rows
    else [rows[0]] + Insert(r, rows[1..])
  }

  /** `sort_values(by="timestamp")`, as an insertion sort. */
  function SortByTime(rows: seq<Row>): seq<Row>
  {
    if rows == [] then [] else Insert(rows[0], SortByTime(rows[1..]))
  }

  /** Inserting adds exactly `r`. */
  lemma {:induction false} InsertPermutes(r: Row, rows: seq<Row>)
    ensures multiset(Insert(r, rows)) == multiset(rows) + multiset{r}
  {
    if rows != [] && r.timestamp > rows[0].timestamp {
      InsertPermutes(r, rows[1..]);
      assert rows == [rows[0]] + rows[1..];
    }
  }

  /** Inserting into sorted rows keeps them sorted. */
  lemma {:induction false} InsertSorted(r: Row, rows: seq<Row>)
    requires SortedByTime(rows)
    ensures SortedByTime(Insert(r, rows))
  {
    if rows != [] && r.timestamp > rows[0].timestamp {
      var head, tail := rows[0], rows[1..];
      InsertSorted(r, tail);
      InsertPermutes(r, tail);
      var ins := Insert(r, tail);
      forall k | 0 <= k < |ins| ensures head.timestamp <= ins[k].timestamp {
        assert ins[k] in multiset(ins);
        if ins[k] != r {
          assert ins[k] in multiset(tail);
          var l :| 0 <= l < |tail| && tail[l] == ins[k];
          assert rows[l + 1] == tail[l];
        }
      }
      assert Insert(r, rows) == [head] + ins;
      ConsSorted(head, ins);
    }
  }

  /** A row no later than any of some sorted rows can go before them. */
  lemma ConsSorted(head: Row, rows: seq<Row>)
    requires SortedByTime(rows)
    requires forall k :: 0 <= k < |rows| ==> head.timestamp <= rows[k].timestamp
    ensures SortedByTime([head] + rows)
  {
    var out := [head] + rows;
    forall i, j | 0 <= i < j < |out| ensures out[i].timestamp <= out[j].timestamp {
      assert out[j] == rows[j - 1];
      if i > 0 {
        assert out[i] == rows[i - 1];
      }
    }
  }

  /** The sorted rows are ordered by timestamp and are a permutation of the
      input rows. */
  lemma {:induction false} SortByTimeSorted(rows: seq<Row>)
    ensures SortedByTime(SortByTime(rows))
    ensures multiset(SortByTime(rows)) == multiset(rows)
  {
    if rows != [] {
      SortByTimeSorted(rows[1..]);
      InsertSorted(rows[0], SortByTime(rows[1..]));
      InsertPermutes(rows[0], SortByTime(rows[1..]));
      assert rows == [rows[0]] + rows[1..];
    }
  }

  /** `_make_result_df`: `pd.concat` of no tables raises ValueError; when no
      table has columns, sorting by `timestamp` raises KeyError. */
  function MakeResult(ts: seq<Table>): (r: Result<Table>)
    ensures r.Err? <==> ts == [] || !HasColumns(ts)
    ensures ts == [] ==> r == Err(ValueError)
    ensures ts != [] && !HasColumns(ts) ==> r == Err(KeyError)
    ensures r.Ok? ==> r.value.Frame?
  {
    if ts == [] then Err(ValueError)
    else if !HasColumns(ts) then Err(KeyError)
    else Ok(Frame(SortByTime(ConcatRows(ts))))
  }

  /** The result table holds every row of every table, ordered by
      nondecreasing timestamp. */
  lemma MakeResultRows(ts: seq<Table>)
    requires ts != [] && HasColumns(ts)
    ensures MakeResult(ts).Ok?
    ensures SortedByTime(MakeResult(ts).value.rows)
    ensures multiset(MakeResult(ts).value.rows) == multiset(ConcatRows(ts))
  {
    SortByTimeSorted(ConcatRows(ts));
  }

  /** The tables one run collects, and the exception that ended it early. */
  datatype Collection = Collection(tables: seq<Table>, error: Option<Error>)

  class Scraper {
    const summaries: Summaries
    /** `validators.url`, which the reader's constructor asserts. */
    const isValidUrl: string -> bool
    /** `read_summary()` of a reader for a valid URL, then its `df`; an
        exception is an Err. */
    const readPage: string -> Result<Table>
    var dfs: seq<Table>
    var df: Option<Table>

    /** `__init__`: the summaries kept verbatim and no tables yet. */
    constructor (summaries: Summaries, isValidUrl: string -> bool, readPage: string -> Result<Table>)
      ensures this.summaries == summaries && this.isValidUrl == isValidUrl && this.readPage == readPage
      ensures dfs == [] && df == None
    {
      this.summaries := summaries;
      this.isValidUrl := isValidUrl;
      this.readPage := readPage;
      dfs := [];
      df := None;
    }

    /** `read_summary(url)`: any exception of reading becomes a table with no
        columns, but the reader's constructor runs outside the `try`, so an
        invalid URL raises AssertionError. */
    function ReadSummary(url: string): (r: Result<Table>)
      ensures r.Err? <==> !isValidUrl(url)
      ensures r.Err? ==> r.error == AssertionError
      ensures isValidUrl(url) && readPage(url).Err? ==> r == Ok(NoColumns)
      ensures isValidUrl(url) && readPage(url).Ok? ==> r == readPage(url)
    {
      if !isValidUrl(url) then Err(AssertionError)
      else match readPage(url)
        case Ok(t) => Ok(t)
        case Err(_) => Ok(NoColumns)
    }

    /** The loop of `run` over a list of URLs: one table per URL, in order,
        until an exception escapes `read_summary`. */
    function ReadAll(urls: seq<string>): Collection
    {
      if urls == [] then Collection([], None)
      else
        var c := ReadAll(urls[..|urls| - 1]);
        if c.error.Some? then c
        else match ReadSummary(urls[|urls| - 1])
          case Err(e) => Collection(c.tables, Some(e))
          case Ok(t) => Collection(c.tables + [t], None)
    }

    /** The URLs the run reads: the list, the one URL, or none. */
    function Urls(): seq<string>
    {
      match summaries
      case UrlList(urls) => urls
      case Url(url) => [url]
      case Other => []
    }

    /** The run completes iff every URL is valid; then it yields one table
        per URL, in list order, each what `read_summary` gives for its URL,
        so a page that fails to read does not stop the later ones. */
    lemma {:induction false} ReadAllTables(urls: seq<string>)
      ensures ReadAll(urls).error == None <==> forall i :: 0 <= i < |urls| ==> isValidUrl(urls[i])
      ensures ReadAll(urls).error == None ==>
        (|ReadAll(urls).tables| == |urls|
         && forall i :: 0 <= i < |urls| ==> Ok(ReadAll(urls).tables[i]) == ReadSummary(urls[i]))
    {
      if urls != [] {
        var init := urls[..|urls| - 1];
        ReadAllTables(init);
        assert forall i :: 0 <= i < |init| ==> init[i] == urls[i];
      }
    }

    /** An invalid URL ends the run with AssertionError, after one table for
        each URL before the first invalid one. */
    lemma {:induction false} ReadAllStopsAtInvalid(urls: seq<string>, k: nat)
      requires k < |urls| && !isValidUrl(urls[k])
      requires forall i :: 0 <= i < k ==> isValidUrl(urls[i])
      ensures ReadAll(urls).error == Some(AssertionError)
      ensures |ReadAll(urls).tables| == k
    {
      var init := urls[..|urls| - 1];
      if k == |urls| - 1 {
        ReadAllTables(init);
        assert forall i :: 0 <= i < |init| ==> init[i] == urls[i];
      } else {
        assert init[k] == urls[k];
        ReadAllStopsAtInvalid(init, k);
      }
    }

    /** `run`: appends the table of each URL to `dfs` (which is never reset,
        so repeated runs accumulate), then sets `df` to the joined, sorted
        table; an exception leaves `df` as it was. */
    method Run() returns (error: Option<Error>)
      modifies this
      ensures dfs == old(dfs) + ReadAll(Urls()).tables
      ensures ReadAll(Urls()).error.Some? ==> error == ReadAll(Urls()).error && df == old(df)
      ensures ReadAll(Urls()).error.None? && MakeResult(dfs).Err? ==>
        error == Some(MakeResult(dfs).error) && df == old(df)
      ensures ReadAll(Urls()).error.None? && MakeResult(dfs).Ok? ==>
        error == None && df == Some(MakeResult(dfs).value)
    {
      var urls := Urls();
      ghost var start := dfs;
      for i := 0 to |urls|
        invariant |start| <= |dfs| && dfs[..|start|] == start
        invariant ReadAll(urls[..i]) == Collection(dfs[|start|..], None)
        invariant df == old(df)
      {
        assert urls[..i + 1][..i] == urls[..i];
        var result := ReadSummary(urls[i]);
        if result.Err? {
          ReadAllStopped(urls, i + 1);
          return Some(result.error);
        }
        dfs := dfs + [result.value];
      }
      assert urls[..|urls|] == urls;
      assert dfs == start + dfs[|start|..];
      var r := MakeResult(dfs);
      if r.Err? {
        return Some(r.error);
      }
      df := Some(r.value);
      error := None;
    }

    /** Once an exception has escaped, later URLs are not read. */
    lemma {:induction false} ReadAllStopped(urls: seq<string>, k: nat)
      requires k <= |urls| && ReadAll(urls[..k]).error.Some?
      ensures ReadAll(urls) == ReadAll(urls[..k])
      decreases |urls| - k
    {
      if k < |urls| {
        assert urls[..k + 1][..k] == urls[..k];
        ReadAllStopped(urls, k + 1);
      } else {
        assert urls[..k] == urls;
      }
    }
  }
}
