/**
 * crawler/article.py, PttArticleCrawler: the crawl itself. From the arguments it walks
 * a board's index pages from the newest page of the range down to the oldest, records
 * each page's article links, parses every article and hands the page's records to the
 * database writer, stopping early once a page holds articles older than the start
 * date. From the database it parses the articles the stored index rows name, twenty
 * at a time.
 */
module ArticleWalk {
  import opened Wrappers
  import opened Text
  import opened Gateway
  import opened Records
  import opened Store
  import opened ArticleParse
  import opened ArticleSync
  import opened Listing
  import opened OutputConfig
  import opened Batches

  // ---------------------------------------------------------------- configuration

  /**
   * The page range of __init__: none to walk when crawling from the database, the
   * two numbers of --index when given, and otherwise page 1 up to the last page the
   * board's front page reports.
   */
  function InitialPages(fromDatabase: bool, index: Option<(int, int)>, frontPage: string): (int, int) {
    if fromDatabase then (0, 0)
    else if index.Some? then index.value
    else (1, LastPageOf(frontPage))
  }

  /** A --start-date crawl whose board's front page links page n as the previous page walks pages 1 to n + 1. */
  lemma StartDateRange(pre: string, board: string, digits: string, rest: string)
    requires board != [] && AllChars(board, IsWordChar)
    requires digits != [] && AllChars(digits, IsDigit)
    requires forall m | 0 <= m < |pre| :: PrevPageAt(pre + FrontPage(board, digits, rest), m).None?
    ensures InitialPages(false, None, pre + FrontPage(board, digits, rest)) == (1, ParseDecimal(digits).value + 1)
  {
    LastPageOfPrevLink(pre, board, digits, rest);
  }

  /** Without a previous-page link the start-date crawl walks page 1 alone. */
  lemma StartDateRangeWithoutLink(content: string)
    requires !Contains(content, PrevHead)
    ensures InitialPages(false, None, content) == (1, 1)
  {
    LastPageWithoutPrevLink(content);
  }

  // ---------------------------------------------------------------- the links of an index page

  /** The tuple a readable entry adds: its web id, its absolute link and the page number. */
  function EntryOf(href: string, page: int): IndexEntry {
    IndexEntry(WebIdOf(href), PttUrl + href, page)
  }

  function EntriesOf(links: seq<string>, page: int): (r: seq<IndexEntry>)
    ensures |r| == |links|
    ensures forall k | 0 <= k < |links| :: r[k] == EntryOf(links[k], page)
  {
    seq(|links|, k requires 0 <= k < |links| => EntryOf(links[k], page))
  }

  lemma EntriesOfCons(h: string, links: seq<string>, page: int)
    ensures EntriesOf([h] + links, page) == [EntryOf(h, page)] + EntriesOf(links, page)
  {
    assert forall k | 1 <= k < |links| + 1 :: ([h] + links)[k] == links[k - 1];
  }

  /**
   * The loop over a page's child divs in _crawling_from_arg: the entries it collects
   * and whether the local `link` is bound afterwards, or None when it raises. Nothing
   * guards div['class'], so a div without a class list always raises; an r-ent div
   * whose href cannot be read raises in the handler that logs `link` when `link` has
   * never been bound, and is skipped when it has.
   */
  function PageLinks(ds: seq<Div>, page: int, bound: bool): Option<(seq<IndexEntry>, bool)> {
    if ds == [] then Some(([], bound))
    else match ds[0].classes
      case None => None
      case Some(cs) =>
        if "r-list-sep" in cs then Some(([], bound))
        else if "r-ent" in cs then
          if ds[0].href.Some? then Prepend([EntryOf(ds[0].href.value, page)], PageLinks(ds[1..], page, true))
          else if bound then PageLinks(ds[1..], page, bound)
          else None
        else PageLinks(ds[1..], page, bound)
  }

  /** A div before the first separator that is missing its class list, or an entry missing its link. */
  predicate Unreadable(d: Div) {
    d.classes.None? || ("r-list-sep" !in d.classes.value && "r-ent" in d.classes.value && d.href.None?)
  }

  /**
   * A page that is scanned to its end yields one entry per readable r-ent div before
   * the first separator, in page order, and leaves `link` bound exactly when it was
   * bound already or such a div exists.
   */
  lemma {:induction false} PageLinksEntries(ds: seq<Div>, page: int, bound: bool)
    ensures var r := PageLinks(ds, page, bound);
      r.Some? ==> r.value == (EntriesOf(EntryLinks(BeforeSep(ds)), page), bound || EntryLinks(BeforeSep(ds)) != [])
  {
    if ds != [] {
      var rest := ds[1..];
      assert ds == [ds[0]] + rest;
      match ds[0].classes
      case None =>
      case Some(cs) =>
        if "r-list-sep" !in cs {
          assert BeforeSep(ds) == [ds[0]] + BeforeSep(rest);
          assert ([ds[0]] + BeforeSep(rest))[1..] == BeforeSep(rest);
          if "r-ent" in cs && ds[0].href.Some? {
            PageLinksEntries(rest, page, true);
            EntriesOfCons(ds[0].href.value, EntryLinks(BeforeSep(rest)), page);
          } else {
            PageLinksEntries(rest, page, bound);
          }
        }
    }
  }

  /**
   * A page whose divs before the first separator are all readable never raises; one
   * with a class-less div there always does.
   */
  lemma {:induction false} PageLinksRaises(ds: seq<Div>, page: int, bound: bool)
    ensures (forall k | 0 <= k < |BeforeSep(ds)| :: !Unreadable(BeforeSep(ds)[k])) ==> PageLinks(ds, page, bound).Some?
    ensures (exists k | 0 <= k < |BeforeSep(ds)| :: BeforeSep(ds)[k].classes.None?) ==> PageLinks(ds, page, bound).None?
  {
    if ds != [] && !IsSep(ds[0]) {
      var rest := ds[1..];
      assert BeforeSep(ds) == [ds[0]] + BeforeSep(rest);
      assert forall k | 1 <= k < |BeforeSep(ds)| :: BeforeSep(ds)[k] == BeforeSep(rest)[k - 1];
      if ds[0].classes.Some? {
        PageLinksRaises(rest, page, true);
        PageLinksRaises(rest, page, bound);
        if exists k | 0 <= k < |BeforeSep(ds)| :: BeforeSep(ds)[k].classes.None? {
          var k :| 0 <= k < |BeforeSep(ds)| && BeforeSep(ds)[k].classes.None?;
          assert BeforeSep(rest)[k - 1].classes.None?;
        }
      }
    }
  }

  /** The loop over a page's children, collecting the entries of its articles. */
  method ScanLinks(ds: seq<Div>, page: int, bound: bool) returns (entries: seq<IndexEntry>, linkBound: bool, raised: bool)
    ensures PageLinks(ds, page, bound) == if raised then None else Some((entries, linkBound))
  {
    entries, linkBound, raised := [], bound, false;
    var i := 0;
    assert ds[0..] == ds;
    PrependNothing(PageLinks(ds, page, bound));
    while i < |ds|
      invariant 0 <= i <= |ds|
      invariant PageLinks(ds, page, bound) == Prepend(entries, PageLinks(ds[i..], page, linkBound))
    {
      var d := ds[i];
      assert ds[i..][1..] == ds[i + 1..];
      match d.classes {
        case None =>
          raised := true;
          return;
        case Some(cs) =>
          if "r-list-sep" in cs {
            assert entries + [] == entries;
            return;
          }
          if "r-ent" in cs {
            if d.href.Some? {
              var e := EntryOf(d.href.value, page);
              PrependAppend(entries, [e], PageLinks(ds[i + 1..], page, true));
              entries := entries + [e];
              linkBound := true;
            } else if !linkBound {
              raised := true;
              return;
            }
          }
      }
      i := i + 1;
    }
    assert entries + [] == entries;
  }

  /** The page as far as its links: None when raise_for_status raises, the container is missing, or the scan raises. */
  function Listed(resp: IndexResponse, page: int, bound: bool): Option<(seq<IndexEntry>, bool)> {
    if RaisesForStatus(resp.status) || resp.container.None? then None
    else PageLinks(resp.container.value, page, bound)
  }

  // ---------------------------------------------------------------- the articles of a page

  /**
   * The parse results of a page's entries, in page order. An entry whose parse raises
   * is logged and left out; an entry fetched with a status other than 200 gives the
   * error dictionary.
   */
  function ParsedList(entries: seq<IndexEntry>, articles: string -> Page, board: string, fm: Formats): (r: seq<Parsed>)
    ensures |r| <= |entries|
  {
    if entries == [] then []
    else ParseEntry(entries[0], articles, board, fm) + ParsedList(entries[1..], articles, board, fm)
  }

  /** The parse result of one entry, or nothing when parse raises. */
  function ParseEntry(e: IndexEntry, articles: string -> Page, board: string, fm: Formats): (r: seq<Parsed>)
    ensures |r| <= 1
    ensures forall k | 0 <= k < |r| && r[k].Record? ::
      r[k].rec.board == board && r[k].rec.articleId == e.webId && r[k].rec.url == e.link
  {
    match ParseSpec(articles(e.link), e.link, e.webId, board, fm)
    case None => []
    case Some(p) => [p]
  }

  /** A record that carries the crawled board and the id and link of one of `entries`. */
  predicate FromEntries(p: Parsed, entries: seq<IndexEntry>, board: string) {
    p.Record? ==> p.rec.board == board && exists e | e in entries :: p.rec.articleId == e.webId && p.rec.url == e.link
  }

  /** Every record parsed for a page carries the id and the link of one of the page's entries, and the crawled board. */
  lemma {:induction false} ParsedListRecords(entries: seq<IndexEntry>, articles: string -> Page, board: string, fm: Formats)
    ensures forall k | 0 <= k < |ParsedList(entries, articles, board, fm)| ::
      FromEntries(ParsedList(entries, articles, board, fm)[k], entries, board)
  {
    if entries != [] {
      var e := entries[0];
      var rest := ParsedList(entries[1..], articles, board, fm);
      ParsedListRecords(entries[1..], articles, board, fm);
      var first := ParseEntry(e, articles, board, fm);
      var r := ParsedList(entries, articles, board, fm);
      assert r == first + rest;
      forall k | 0 <= k < |r| ensures FromEntries(r[k], entries, board) {
        if k < |first| {
          assert r[k] == first[k];
          assert e in entries;
        } else {
          assert r[k] == rest[k - |first|];
          assert FromEntries(rest[k - |first|], entries[1..], board);
          assert forall x | x in entries[1..] :: x in entries;
        }
      }
    }
  }

  /** The loop parsing a page's articles, each in its own try. */
  method ParseAll(entries: seq<IndexEntry>, articles: string -> Page, board: string, fm: Formats) returns (parsed: seq<Parsed>)
    ensures parsed == ParsedList(entries, articles, board, fm)
  {
    parsed := [];
    var i := 0;
    assert entries[0..] == entries;
    while i < |entries|
      invariant 0 <= i <= |entries|
      invariant ParsedList(entries, articles, board, fm) == parsed + ParsedList(entries[i..], articles, board, fm)
    {
      var e := entries[i];
      ParsedListStep(entries, i, articles, board, fm);
      var found := ParseOne(e, articles, board, fm);
      assert parsed + (found + ParsedList(entries[i + 1..], articles, board, fm))
          == (parsed + found) + ParsedList(entries[i + 1..], articles, board, fm);
      parsed := parsed + found;
      i := i + 1;
    }
  }

  /** One try of the loop: the article fetched and parsed, or nothing when parse raises. */
  method ParseOne(e: IndexEntry, articles: string -> Page, board: string, fm: Formats) returns (found: seq<Parsed>)
    ensures found == ParseEntry(e, articles, board, fm)
  {
    var r := Parse(articles(e.link), e.link, e.webId, board, fm);
    found := if r.Some? then [r.value] else [];
  }

  lemma ParsedListStep(entries: seq<IndexEntry>, i: nat, articles: string -> Page, board: string, fm: Formats)
    requires i < |entries|
    ensures ParsedList(entries[i..], articles, board, fm)
         == ParseEntry(entries[i], articles, board, fm) + ParsedList(entries[i + 1..], articles, board, fm)
  {
    assert entries[i..][1..] == entries[i + 1..];
  }

  // ---------------------------------------------------------------- the start-date filter

  /** A record whose date reads as earlier than the start date. */
  predicate Early(p: Parsed, startDate: Instant, fm: Formats) {
    p.Record? && fm.readDisplay(p.rec.date).Some? && fm.readDisplay(p.rec.date).value < startDate
  }

  /** A record whose date reads as the start date or later. */
  predicate OnTime(p: Parsed, startDate: Instant, fm: Formats) {
    p.Record? && fm.readDisplay(p.rec.date).Some? && startDate <= fm.readDisplay(p.rec.date).value
  }

  /** Adds kept records in front and unreadable dates to the count; a filter that raised stays raised. */
  function Shift(kept: seq<Parsed>, bad: nat, r: Option<(seq<Parsed>, nat)>): Option<(seq<Parsed>, nat)> {
    match r
    case None => None
    case Some((k, b)) => Some((kept + k, bad + b))
  }

  lemma ShiftShift(kept: seq<Parsed>, bad: nat, kept2: seq<Parsed>, bad2: nat, r: Option<(seq<Parsed>, nat)>)
    ensures Shift(kept, bad, Shift(kept2, bad2, r)) == Shift(kept + kept2, bad + bad2, r)
  {
    if r.Some? {
      assert kept + (kept2 + r.value.0) == (kept + kept2) + r.value.0;
    }
  }

  /**
   * The loop over a page's parse results when a start date is given: the records
   * dated no earlier than the start date, and how many dates could not be read. None
   * when it reaches an error dictionary: reading its 'date' raises, and so does the
   * handler, which reads its 'article_id'.
   */
  function DateFilter(list: seq<Parsed>, startDate: Instant, fm: Formats): (r: Option<(seq<Parsed>, nat)>)
    ensures r.Some? ==> |r.value.0| + r.value.1 <= |list|
  {
    if list == [] then Some(([], 0))
    else match list[0]
      case InvalidUrl => None
      case Record(rec) =>
        var rest := DateFilter(list[1..], startDate, fm);
        match fm.readDisplay(rec.date)
        case None => Shift([], 1, rest)
        case Some(t) => if startDate <= t then Shift([list[0]], 0, rest) else rest
  }

  /** The filter raises exactly when the page holds an error dictionary. */
  lemma {:induction false} DateFilterRaises(list: seq<Parsed>, startDate: Instant, fm: Formats)
    ensures DateFilter(list, startDate, fm).None? <==> exists k | 0 <= k < |list| :: list[k].InvalidUrl?
  {
    if list != [] {
      var rest := list[1..];
      DateFilterRaises(rest, startDate, fm);
      assert forall k | 1 <= k < |list| :: list[k] == rest[k - 1];
      assert forall k | 0 <= k < |rest| :: rest[k] == list[k + 1];
    }
  }

  /** Otherwise it keeps the records dated on time, in order. */
  lemma {:induction false} DateFilterKeeps(list: seq<Parsed>, startDate: Instant, fm: Formats)
    ensures DateFilter(list, startDate, fm).Some? ==>
      DateFilter(list, startDate, fm).value.0 == Filter(list, p => OnTime(p, startDate, fm))
  {
    if list != [] {
      DateFilterKeeps(list[1..], startDate, fm);
    }
  }

  /**
   * The records it keeps and the dates it cannot read account for the whole page
   * exactly when no record is early.
   */
  lemma {:induction false} DateFilterCounts(list: seq<Parsed>, startDate: Instant, fm: Formats)
    ensures DateFilter(list, startDate, fm).Some? ==>
      (|DateFilter(list, startDate, fm).value.0| + DateFilter(list, startDate, fm).value.1 == |list|
       <==> forall k | 0 <= k < |list| :: !Early(list[k], startDate, fm))
  {
    if list != [] {
      var rest := list[1..];
      DateFilterCounts(rest, startDate, fm);
      assert forall k | 1 <= k < |list| :: list[k] == rest[k - 1];
      assert forall k | 0 <= k < |rest| :: rest[k] == list[k + 1];
    }
  }

  /**
   * What the page hands on when a start date may be given: with none, every parse
   * result; with one, the records dated on time if fewer of them than expected
   * remain (the flag then says the start of the range moves to this page), and
   * otherwise every parse result. None when the filter raises.
   */
  function Narrow(list: seq<Parsed>, startDate: Option<Instant>, fm: Formats): Option<(seq<Parsed>, bool)> {
    if startDate.None? then Some((list, false))
    else match DateFilter(list, startDate.value, fm)
      case None => None
      case Some((kept, bad)) =>
        if |kept| < |list| - bad then Some((kept, true)) else Some((list, false))
  }

  /**
   * A page narrows the range exactly when a start date is given and one of its records
   * is dated earlier; it then hands on only the records dated on time. A page that
   * does not narrow hands on all its parse results, unreadable dates included.
   */
  lemma NarrowMeaning(list: seq<Parsed>, startDate: Option<Instant>, fm: Formats)
    ensures var r := Narrow(list, startDate, fm);
      && (r.None? <==> startDate.Some? && exists k | 0 <= k < |list| :: list[k].InvalidUrl?)
      && (r.Some? ==> (r.value.1 <==> startDate.Some? && exists k | 0 <= k < |list| :: Early(list[k], startDate.value, fm)))
      && (r.Some? && r.value.1 ==> startDate.Some? && r.value.0 == Filter(list, p => OnTime(p, startDate.value, fm)))
      && (r.Some? && !r.value.1 ==> r.value.0 == list)
  {
    if startDate.Some? {
      DateFilterRaises(list, startDate.value, fm);
      DateFilterKeeps(list, startDate.value, fm);
      DateFilterCounts(list, startDate.value, fm);
    }
  }

  /** The filter loop, counting down the expected number as it meets dates it cannot read. */
  method FilterByDate(list: seq<Parsed>, startDate: Instant, fm: Formats) returns (r: Option<(seq<Parsed>, bool)>)
    ensures r == Narrow(list, Some(startDate), fm)
  {
    var kept: seq<Parsed> := [];
    var expected := |list|;
    var i := 0;
    assert list[0..] == list;
    ShiftNothing(DateFilter(list, startDate, fm));
    while i < |list|
      invariant 0 <= i <= |list|
      invariant expected + (i - |kept|) >= |list| >= expected
      invariant DateFilter(list, startDate, fm) == Shift(kept, |list| - expected, DateFilter(list[i..], startDate, fm))
    {
      assert list[i..][1..] == list[i + 1..];
      var rest := DateFilter(list[i + 1..], startDate, fm);
      match list[i] {
        case InvalidUrl =>
          return None;
        case Record(rec) =>
          var date := fm.readDisplay(rec.date);
          if date.None? {
            ShiftShift(kept, |list| - expected, [], 1, rest);
            assert kept + [] == kept;
            expected := expected - 1;
          } else if startDate <= date.value {
            ShiftShift(kept, |list| - expected, [list[i]], 0, rest);
            kept := kept + [list[i]];
          }
      }
      i := i + 1;
    }
    assert kept + [] == kept;
    if |kept| < expected {
      r := Some((kept, true));
    } else {
      r := Some((list, false));
    }
  }

  lemma ShiftNothing(r: Option<(seq<Parsed>, nat)>)
    ensures Shift([], 0, r) == r
  {
    if r.Some? {
      assert [] + r.value.0 == r.value.0;
    }
  }

  // ---------------------------------------------------------------- the walk over the index pages

  /**
   * One page of the walk: its number, the entries written to the index table, the
   * parse results of its articles, and what the start-date filter hands on (None:
   * the filter raised).
   */
  datatype PageRun = PageRun(page: int, entries: seq<IndexEntry>, parsed: seq<Parsed>, handed: Option<(seq<Parsed>, bool)>)

  predicate Narrowed(run: PageRun) {
    run.handed.Some? && run.handed.value.1
  }

  /** How a walk ended: the range was exhausted, a page raised, or writing a page's index rows failed. */
  datatype Stop = Finished | Raised | IndexFailed

  /** The run of a page whose entries are listed. */
  function RunOf(entries: seq<IndexEntry>, page: int, articles: string -> Page, board: string,
                 startDate: Option<Instant>, fm: Formats): PageRun {
    var parsed := ParsedList(entries, articles, board, fm);
    PageRun(page, entries, parsed, Narrow(parsed, startDate, fm))
  }

  /**
   * _crawling_from_arg from page `page` down to page `start`, the index rows of every
   * page being written without error: the run of each page in turn and how the walk
   * ended. A page that narrows the range moves its start to that page, which ends the
   * walk after it.
   */
  function ArgWalk(fetch: int -> IndexResponse, articles: string -> Page, board: string, startDate: Option<Instant>,
                   fm: Formats, page: int, start: int, bound: bool): (r: (seq<PageRun>, Stop))
    decreases if page >= start then page - start + 1 else 0
  {
    if page < start then ([], Finished)
    else match Listed(fetch(page), page, bound)
      case None => ([], Raised)
      case Some((entries, b)) =>
        var run := RunOf(entries, page, articles, board, startDate, fm);
        if run.handed.None? then ([run], Raised)
        else
          var rest := ArgWalk(fetch, articles, board, startDate, fm, page - 1, if run.handed.value.1 then page else start, b);
          ([run] + rest.0, rest.1)
  }

  /** The k-th run is page `end` - k, and every entry it lists carries that page number. */
  predicate Descending(runs: seq<PageRun>, end: int) {
    forall k | 0 <= k < |runs| :: runs[k].page == end - k && forall j | 0 <= j < |runs[k].entries| :: runs[k].entries[j].page == end - k
  }

  lemma DescendingCons(run: PageRun, rest: seq<PageRun>, end: int)
    requires run.page == end && forall j | 0 <= j < |run.entries| :: run.entries[j].page == end
    requires Descending(rest, end - 1)
    ensures Descending([run] + rest, end)
  {
    var runs := [run] + rest;
    forall k | 0 <= k < |runs|
      ensures runs[k].page == end - k && forall j | 0 <= j < |runs[k].entries| :: runs[k].entries[j].page == end - k
    {
      if k > 0 {
        assert runs[k] == rest[k - 1];
      }
    }
  }

  /** The run of a listed page carries the page's number on every entry. */
  lemma ListedPage(resp: IndexResponse, page: int, bound: bool)
    requires Listed(resp, page, bound).Some?
    ensures forall j | 0 <= j < |Listed(resp, page, bound).value.0| :: Listed(resp, page, bound).value.0[j].page == page
  {
    PageLinksEntries(resp.container.value, page, bound);
  }

  /** The walk visits the pages from `page` downwards, one run per page, and never goes below the range. */
  lemma {:induction false} ArgWalkPages(fetch: int -> IndexResponse, articles: string -> Page, board: string,
                                        startDate: Option<Instant>, fm: Formats, page: int, start: int, bound: bool)
    ensures Descending(ArgWalk(fetch, articles, board, startDate, fm, page, start, bound).0, page)
    ensures |ArgWalk(fetch, articles, board, startDate, fm, page, start, bound).0| <= if page >= start then page - start + 1 else 0
    decreases if page >= start then page - start + 1 else 0
  {
    if page >= start {
      var l := Listed(fetch(page), page, bound);
      if l.Some? {
        var run := RunOf(l.value.0, page, articles, board, startDate, fm);
        ListedPage(fetch(page), page, bound);
        if run.handed.Some? {
          var start' := if run.handed.value.1 then page else start;
          ArgWalkPages(fetch, articles, board, startDate, fm, page - 1, start', l.value.1);
          DescendingCons(run, ArgWalk(fetch, articles, board, startDate, fm, page - 1, start', l.value.1).0, page);
        } else {
          DescendingCons(run, [], page);
        }
      }
    }
  }

  /**
   * One page of a walk that finished: the page was listed and handed a list on, and the
   * walk below it finished too, with one run fewer and the same last run; a run that
   * narrowed the range is the only one.
   */
  lemma ArgWalkStep(fetch: int -> IndexResponse, articles: string -> Page, board: string,
                    startDate: Option<Instant>, fm: Formats, page: int, start: int, bound: bool)
    requires page >= start
    ensures var w := ArgWalk(fetch, articles, board, startDate, fm, page, start, bound);
      var l := Listed(fetch(page), page, bound);
      w.1 == Finished ==>
        && l.Some? && RunOf(l.value.0, page, articles, board, startDate, fm).handed.Some?
        && var run := RunOf(l.value.0, page, articles, board, startDate, fm);
           var rest := ArgWalk(fetch, articles, board, startDate, fm, page - 1, if Narrowed(run) then page else start, l.value.1);
           && rest.1 == Finished && |w.0| == |rest.0| + 1
           && (rest.0 != [] ==> w.0[|w.0| - 1] == rest.0[|rest.0| - 1])
           && (rest.0 == [] ==> w.0[|w.0| - 1] == run)
           && (Narrowed(run) ==> rest.0 == [])
  {
    var w := ArgWalk(fetch, articles, board, startDate, fm, page, start, bound);
    var l := Listed(fetch(page), page, bound);
    if w.1 == Finished {
      var run := RunOf(l.value.0, page, articles, board, startDate, fm);
      var rest := ArgWalk(fetch, articles, board, startDate, fm, page - 1, if Narrowed(run) then page else start, l.value.1);
      assert w == ([run] + rest.0, rest.1);
    }
  }

  /**
   * A walk from `page` down to `start` that ended normally with a last run that did not
   * narrow the range has one run for every page of the range.
   */
  predicate Covers(w: (seq<PageRun>, Stop), page: int, start: int) {
    w.1 == Finished && (w.0 == [] || !Narrowed(w.0[|w.0| - 1])) ==> |w.0| == if page >= start then page - start + 1 else 0
  }

  lemma CoversCons(run: PageRun, rest: (seq<PageRun>, Stop), page: int, start: int)
    requires page >= start
    requires Covers(rest, page - 1, if Narrowed(run) then page else start)
    requires Narrowed(run) ==> rest == ([], Finished)
    ensures Covers(([run] + rest.0, rest.1), page, start)
  {
    var runs := [run] + rest.0;
    if rest.0 != [] {
      assert runs[|runs| - 1] == rest.0[|rest.0| - 1];
    } else {
      assert runs[|runs| - 1] == run;
    }
  }

  /** Only the last run can narrow the range (ArgWalkNarrowedLast), so such a walk covers the range. */
  lemma {:induction false} ArgWalkCovers(fetch: int -> IndexResponse, articles: string -> Page, board: string,
                                         startDate: Option<Instant>, fm: Formats, page: int, start: int, bound: bool)
    ensures Covers(ArgWalk(fetch, articles, board, startDate, fm, page, start, bound), page, start)
    decreases if page >= start then page - start + 1 else 0
  {
    if page >= start {
      var l := Listed(fetch(page), page, bound);
      if l.Some? {
        var run := RunOf(l.value.0, page, articles, board, startDate, fm);
        if run.handed.Some? {
          var start' := if run.handed.value.1 then page else start;
          ArgWalkCovers(fetch, articles, board, startDate, fm, page - 1, start', l.value.1);
          var rest := ArgWalk(fetch, articles, board, startDate, fm, page - 1, start', l.value.1);
          assert ArgWalk(fetch, articles, board, startDate, fm, page, start, bound) == ([run] + rest.0, rest.1);
          if Narrowed(run) {
            assert rest == ([], Finished);
          }
          CoversCons(run, rest, page, start);
        }
      }
    }
  }

  /** Only the last run of a walk can have narrowed it, and a walk with such a run finished. */
  predicate NarrowedLast(w: (seq<PageRun>, Stop)) {
    forall k | 0 <= k < |w.0| && Narrowed(w.0[k]) :: k == |w.0| - 1 && w.1 == Finished
  }

  lemma NarrowedLastCons(run: PageRun, rest: (seq<PageRun>, Stop))
    requires NarrowedLast(rest) && (Narrowed(run) ==> rest == ([], Finished))
    ensures NarrowedLast(([run] + rest.0, rest.1))
  {
    var runs := [run] + rest.0;
    forall k | 0 <= k < |runs| && Narrowed(runs[k]) ensures k == |runs| - 1 && rest.1 == Finished {
      if k > 0 {
        assert runs[k] == rest.0[k - 1];
      }
    }
  }

  lemma {:induction false} ArgWalkNarrowedLast(fetch: int -> IndexResponse, articles: string -> Page, board: string,
                                               startDate: Option<Instant>, fm: Formats, page: int, start: int, bound: bool)
    ensures NarrowedLast(ArgWalk(fetch, articles, board, startDate, fm, page, start, bound))
    decreases if page >= start then page - start + 1 else 0
  {
    if page >= start {
      var l := Listed(fetch(page), page, bound);
      if l.Some? {
        var run := RunOf(l.value.0, page, articles, board, startDate, fm);
        if run.handed.Some? {
          var start' := if run.handed.value.1 then page else start;
          ArgWalkNarrowedLast(fetch, articles, board, startDate, fm, page - 1, start', l.value.1);
          var rest := ArgWalk(fetch, articles, board, startDate, fm, page - 1, start', l.value.1);
          assert ArgWalk(fetch, articles, board, startDate, fm, page, start, bound) == ([run] + rest.0, rest.1);
          if Narrowed(run) {
            assert rest == ([], Finished);
          }
          NarrowedLastCons(run, rest);
        }
      }
    }
  }

  /** The walk `whole` is `done` followed by the walk `rest`. */
  predicate RunsFrom(whole: (seq<PageRun>, Stop), done: seq<PageRun>, rest: (seq<PageRun>, Stop)) {
    whole == (done + rest.0, rest.1)
  }

  /** Below the start of the range nothing is left of the walk. */
  lemma ArgWalkBelow(fetch: int -> IndexResponse, articles: string -> Page, board: string, startDate: Option<Instant>,
                     fm: Formats, page: int, start: int, bound: bool, whole: (seq<PageRun>, Stop), done: seq<PageRun>)
    requires page < start
    requires RunsFrom(whole, done, ArgWalk(fetch, articles, board, startDate, fm, page, start, bound))
    ensures whole == (done, Finished)
  {
    assert done + [] == done;
  }

  /** A walk that stopped with `runs` agrees with the walk `whole`: all of it, or the part before a failed index write. */
  predicate EndsAs(whole: (seq<PageRun>, Stop), runs: seq<PageRun>, stop: Stop) {
    && (stop != IndexFailed ==> (runs, stop) == whole)
    && (stop == IndexFailed ==> |runs| < |whole.0| && whole.0[..|runs|] == runs)
  }

  /** Walking one more page of the range. */
  lemma ArgAdvance(fetch: int -> IndexResponse, articles: string -> Page, board: string, startDate: Option<Instant>,
                   fm: Formats, page: int, start: int, bound: bool, whole: (seq<PageRun>, Stop), done: seq<PageRun>)
    requires page >= start && RunsFrom(whole, done, ArgWalk(fetch, articles, board, startDate, fm, page, start, bound))
    ensures var l := Listed(fetch(page), page, bound);
      && (l.None? ==> whole == (done, Raised))
      && (l.Some? ==> var run := RunOf(l.value.0, page, articles, board, startDate, fm);
            && |done| < |whole.0| && whole.0[..|done|] == done
            && (run.handed.None? ==> whole == (done + [run], Raised))
            && (run.handed.Some? ==> RunsFrom(whole, done + [run],
                  ArgWalk(fetch, articles, board, startDate, fm, page - 1, if run.handed.value.1 then page else start, l.value.1))))
  {
    var l := Listed(fetch(page), page, bound);
    if l.Some? {
      var run := RunOf(l.value.0, page, articles, board, startDate, fm);
      if run.handed.Some? {
        var rest := ArgWalk(fetch, articles, board, startDate, fm, page - 1, if run.handed.value.1 then page else start, l.value.1);
        assert ArgWalk(fetch, articles, board, startDate, fm, page, start, bound) == ([run] + rest.0, rest.1);
        DoneThenRun(done, run, rest.0);
      } else {
        assert ArgWalk(fetch, articles, board, startDate, fm, page, start, bound) == ([run], Raised);
        DoneThenRun(done, run, []);
      }
    } else {
      assert ArgWalk(fetch, articles, board, startDate, fm, page, start, bound) == ([], Raised);
      assert done + [] == done;
    }
  }

  lemma DoneThenRun<T>(done: seq<T>, run: T, rest: seq<T>)
    ensures done + ([run] + rest) == done + [run] + rest
    ensures |done| < |done + [run] + rest| && (done + [run] + rest)[..|done|] == done
    ensures done + [run] + [] == done + [run]
  {
  }

  /** The start of the range after the runs: the page of the last run that narrowed it, if any. */
  function StartAfter(runs: seq<PageRun>, start: int): int {
    if runs == [] then start
    else if Narrowed(runs[|runs| - 1]) then runs[|runs| - 1].page
    else StartAfter(runs[..|runs| - 1], start)
  }

  lemma StartAfterSnoc(runs: seq<PageRun>, run: PageRun, start: int)
    ensures StartAfter(runs + [run], start) == if Narrowed(run) then run.page else StartAfter(runs, start)
  {
    assert (runs + [run])[..|runs|] == runs;
  }

  // ---------------------------------------------------------------- crawling from the database

  /** The link _crawling_from_db builds for a stored index row: /bbs/<board>/<web id>.html on the site. */
  function ArticleLink(boardName: string, webId: string): string {
    PttUrl + "/bbs/" + boardName + "/" + webId + ".html"
  }

  /** The web id of the link built for a row is the row's web id again. */
  lemma ArticleLinkWebId(boardName: string, webId: string)
    requires '/' !in webId && !Contains(webId, ".html")
    ensures WebIdOf(ArticleLink(boardName, webId)) == webId
  {
    WebIdOfLink(PttUrl + "/bbs/" + boardName, webId);
  }

  /** The web ids of the board's stored articles. */
  function BoardArticleIds(articles: seq<Stored<Article>>, boardId: nat): (r: seq<string>)
    ensures forall w :: w in r <==> exists k | 0 <= k < |articles| :: articles[k].val.boardId == boardId && articles[k].val.webId == w
  {
    if articles == [] then []
    else (if articles[0].val.boardId == boardId then [articles[0].val.webId] else [])
         + BoardArticleIds(articles[1..], boardId)
  }

  /**
   * The index rows _crawling_from_db works through. With --upgrade the query filters
   * on the article table without joining it: every index row, once each, when the
   * board has any stored article, and none when it has not. Otherwise the index rows,
   * of every board, whose web id is not among the board's stored articles.
   */
  function Selected(indexes: seq<Stored<ArticleIndex>>, articles: seq<Stored<Article>>, boardId: nat, upgrade: bool)
    : (r: seq<Stored<ArticleIndex>>)
    ensures upgrade ==> r == (if BoardArticleIds(articles, boardId) != [] then indexes else [])
    ensures !upgrade ==> forall k | 0 <= k < |indexes| ::
      indexes[k] in r <==> indexes[k].val.webId !in BoardArticleIds(articles, boardId)
    ensures !upgrade ==> forall k | 0 <= k < |r| :: r[k] in indexes
  {
    var ids := BoardArticleIds(articles, boardId);
    if upgrade then (if ids != [] then indexes else [])
    else Filter(indexes, (x: Stored<ArticleIndex>) => x.val.webId !in ids)
  }

  /** The name of the board with the given id, as the index row's board relationship loads it. */
  function BoardName(boards: seq<Stored<Board>>, id: nat): (r: Option<string>)
    ensures r.Some? <==> exists k | 0 <= k < |boards| :: boards[k].id == id
  {
    if boards == [] then None
    else if boards[0].id == id then Some(boards[0].val.name)
    else BoardName(boards[1..], id)
  }

  /** The parse of one selected row; None when its board cannot be loaded or parse raises. */
  function DbParseOne(x: Stored<ArticleIndex>, boards: seq<Stored<Board>>, articles: string -> Page, board: string,
                      fm: Formats): (r: Option<Parsed>)
    ensures r.Some? && r.value.Record? ==> r.value.rec.articleId == x.val.webId && r.value.rec.board == board
  {
    match BoardName(boards, x.val.boardId)
    case None => None
    case Some(name) =>
      var link := ArticleLink(name, x.val.webId);
      ParseSpec(articles(link), link, x.val.webId, board, fm)
  }

  /**
   * The parse results of the selected rows in order, up to the first row that raises
   * (parse is not guarded here, so that ends the crawl), and whether one did.
   */
  function DbParsed(sel: seq<Stored<ArticleIndex>>, boards: seq<Stored<Board>>, articles: string -> Page, board: string,
                    fm: Formats): (r: (seq<Parsed>, bool))
  {
    if sel == [] then ([], false)
    else match DbParseOne(sel[0], boards, articles, board, fm)
      case None => ([], true)
      case Some(p) =>
        var rest := DbParsed(sel[1..], boards, articles, board, fm);
        ([p] + rest.0, rest.1)
  }

  /**
   * One result per selected row up to the one that raised, each record carrying the
   * web id of its row and the crawled board; a crawl that does not raise parses them all.
   */
  lemma {:induction false} DbParsedRows(sel: seq<Stored<ArticleIndex>>, boards: seq<Stored<Board>>, articles: string -> Page,
                                        board: string, fm: Formats)
    ensures DbParsed(sel, boards, articles, board, fm).1 ==> |DbParsed(sel, boards, articles, board, fm).0| < |sel|
    ensures !DbParsed(sel, boards, articles, board, fm).1 ==> |DbParsed(sel, boards, articles, board, fm).0| == |sel|
    ensures forall k | 0 <= k < |DbParsed(sel, boards, articles, board, fm).0| && DbParsed(sel, boards, articles, board, fm).0[k].Record? ::
      DbParsed(sel, boards, articles, board, fm).0[k].rec.articleId == sel[k].val.webId
      && DbParsed(sel, boards, articles, board, fm).0[k].rec.board == board
  {
    if sel != [] {
      var p := DbParseOne(sel[0], boards, articles, board, fm);
      if p.Some? {
        DbParsedRows(sel[1..], boards, articles, board, fm);
        var rest := DbParsed(sel[1..], boards, articles, board, fm);
        var ps := [p.value] + rest.0;
        forall k | 0 <= k < |ps| && ps[k].Record? ensures ps[k].rec.articleId == sel[k].val.webId && ps[k].rec.board == board {
          if k > 0 {
            assert ps[k] == rest.0[k - 1];
            assert sel[1..][k - 1] == sel[k];
          }
        }
      }
    }
  }

  /** The results read so far are `done`, and `rest` is what the remaining rows give. */
  predicate ParsedFrom(whole: (seq<Parsed>, bool), done: seq<Parsed>, rest: (seq<Parsed>, bool)) {
    whole == (done + rest.0, rest.1)
  }

  /**
   * After `i` rows of `sel` the results read are `done`: the rest of the walk follows from the
   * remaining rows, or, once a row raised, nothing follows.
   */
  predicate DbProgress(whole: (seq<Parsed>, bool), done: seq<Parsed>, sel: seq<Stored<ArticleIndex>>, i: nat, raised: bool,
                       boards: seq<Stored<Board>>, articles: string -> Page, board: string, fm: Formats)
  {
    && i <= |sel|
    && (!raised ==> ParsedFrom(whole, done, DbParsed(sel[i..], boards, articles, board, fm)))
    && (raised ==> whole == (done, true))
  }

  /** One row further: a row that raises ends the crawl with what was read, any other adds its result. */
  lemma DbProgressStep(whole: (seq<Parsed>, bool), done: seq<Parsed>, sel: seq<Stored<ArticleIndex>>, i: nat,
                       boards: seq<Stored<Board>>, articles: string -> Page, board: string, fm: Formats)
    requires i < |sel| && DbProgress(whole, done, sel, i, false, boards, articles, board, fm)
    ensures DbParseOne(sel[i], boards, articles, board, fm).None? ==>
      DbProgress(whole, done, sel, i + 1, true, boards, articles, board, fm)
    ensures DbParseOne(sel[i], boards, articles, board, fm).Some? ==>
      DbProgress(whole, done + [DbParseOne(sel[i], boards, articles, board, fm).value], sel, i + 1, false, boards, articles, board, fm)
  {
    assert sel[i..][1..] == sel[i + 1..];
    assert done + [] == done;
    match DbParseOne(sel[i], boards, articles, board, fm) {
      case None =>
      case Some(p) =>
        var rest := DbParsed(sel[i + 1..], boards, articles, board, fm);
        assert done + ([p] + rest.0) == (done + [p]) + rest.0;
    }
  }

  /** At the end of the rows, or once a row raised, the results read are the whole walk. */
  lemma DbProgressEnd(whole: (seq<Parsed>, bool), done: seq<Parsed>, sel: seq<Stored<ArticleIndex>>, i: nat, raised: bool,
                      boards: seq<Stored<Board>>, articles: string -> Page, board: string, fm: Formats)
    requires DbProgress(whole, done, sel, i, raised, boards, articles, board, fm) && (raised || i == |sel|)
    ensures whole == (done, raised)
  {
    if !raised {
      assert sel[i..] == [];
      assert done + [] == done;
    }
  }

  /** The batches written so far are the full batches of twenty of `done`, and `batch` holds the rest. */
  predicate Batched(done: seq<Parsed>, batches: seq<seq<Parsed>>, batch: seq<Parsed>) {
    batches == FullBatches(done, 20) && batch == Rest(done, 20)
  }

  lemma BatchedSnoc(done: seq<Parsed>, batches: seq<seq<Parsed>>, batch: seq<Parsed>, p: Parsed)
    requires Batched(done, batches, batch)
    ensures |batch + [p]| <= 20
    ensures |batch + [p]| == 20 ==> Batched(done + [p], batches + [batch + [p]], [])
    ensures |batch + [p]| < 20 ==> Batched(done + [p], batches, batch + [p])
  {
    FullBatchesShape(done, 20);
    BatchesSnoc(done, 20, p);
  }

  // ---------------------------------------------------------------- what the writers report

  /** The list a run hands to _output_database: its records when the database is an output and the page did not raise. */
  function HandedTo(run: PageRun, database: bool): seq<Parsed> {
    if database && run.handed.Some? then run.handed.value.0 else []
  }

  /** The database writer's report for each run of the walk, in order. */
  predicate RunsWritten(runs: seq<PageRun>, written: seq<seq<Outcome>>, database: bool, upgrade: bool) {
    |written| == |runs| && forall k | 0 <= k < |runs| :: Handled(HandedTo(runs[k], database), written[k], upgrade)
  }

  lemma RunsWrittenSnoc(runs: seq<PageRun>, written: seq<seq<Outcome>>, run: PageRun, outcomes: seq<Outcome>,
                        database: bool, upgrade: bool)
    requires RunsWritten(runs, written, database, upgrade)
    requires Handled(HandedTo(run, database), outcomes, upgrade)
    ensures RunsWritten(runs + [run], written + [outcomes], database, upgrade)
  {
    var rs, ws := runs + [run], written + [outcomes];
    forall k | 0 <= k < |rs|
      ensures Handled(HandedTo(rs[k], database), ws[k], upgrade)
    {
      if k < |runs| {
        assert rs[k] == runs[k] && ws[k] == written[k];
      }
    }
  }

  /** The database writer's report for each full batch, in order. */
  predicate BatchesWritten(batches: seq<seq<Parsed>>, written: seq<seq<Outcome>>, upgrade: bool) {
    |written| == |batches| && forall k | 0 <= k < |batches| :: Handled(batches[k], written[k], upgrade)
  }

  lemma BatchesWrittenSnoc(batches: seq<seq<Parsed>>, written: seq<seq<Outcome>>, batch: seq<Parsed>, outcomes: seq<Outcome>,
                           upgrade: bool)
    requires BatchesWritten(batches, written, upgrade)
    requires Handled(batch, outcomes, upgrade)
    ensures BatchesWritten(batches + [batch], written + [outcomes], upgrade)
  {
    var bs, ws := batches + [batch], written + [outcomes];
    forall k | 0 <= k < |bs|
      ensures Handled(bs[k], ws[k], upgrade)
    {
      if k < |batches| {
        assert bs[k] == batches[k] && ws[k] == written[k];
      }
    }
  }

  // ---------------------------------------------------------------- the crawler

  /**
   * What a crawl did: the runs of an argument walk and how it ended, or the batches of a
   * database crawl; with what the database writer reported for each run or batch.
   */
  datatype Crawled =
    | FromArgs(runs: seq<PageRun>, stop: Stop, written: seq<seq<Outcome>>)
    | FromDatabase(batches: seq<seq<Parsed>>, raised: bool, written: seq<seq<Outcome>>)

  class ArticleCrawler {
    const session: Session
    const board: string
    const startDate: Option<Instant>
    const fromDatabase: bool
    const upgrade: bool
    const outputs: Outputs
    const fm: Formats
    var startIndex: int
    var endIndex: int

    /** The crawler is none of the session's objects, so moving its range leaves the session as it is. */
    ghost predicate Apart() {
      this as object != session && this as object != session.time && this !in session.Tables()
    }

    /**
     * __init__ with the configuration read: the output flags from the Output key and
     * the page range from the arguments, the front page of the board standing for
     * what getLastPage fetches.
     */
    constructor (session: Session, board: string, startDate: Option<Instant>, fromDatabase: bool,
                 index: Option<(int, int)>, upgrade: bool, output: Option<string>, fm: Formats, frontPage: string)
      ensures this.session == session && this.board == board && this.startDate == startDate
      ensures this.fromDatabase == fromDatabase && this.upgrade == upgrade && this.fm == fm
      ensures outputs == OutputsOf(output)
      ensures (startIndex, endIndex) == InitialPages(fromDatabase, index, frontPage)
      ensures Apart()
    {
      this.session := session;
      this.board := board;
      this.startDate := startDate;
      this.fromDatabase := fromDatabase;
      this.upgrade := upgrade;
      this.fm := fm;
      outputs := OutputsOf(output);
      if fromDatabase {
        startIndex, endIndex := 0, 0;
      } else if index.Some? {
        startIndex, endIndex := index.value.0, index.value.1;
      } else {
        startIndex, endIndex := 1, LastPageOf(frontPage);
      }
    }

    /** crawling(): the database crawl or the argument walk, as the arguments chose. */
    method Crawl(fetch: int -> IndexResponse, articles: string -> Page) returns (r: Crawled)
      requires session.Valid() && Apart()
      modifies this, session, session.Tables(), session.time
      ensures session.Valid()
      ensures fromDatabase <==> r.FromDatabase?
      ensures r.FromArgs? ==> RunsWritten(r.runs, r.written, outputs.database, upgrade)
      ensures r.FromDatabase? ==> BatchesWritten(r.batches, r.written, upgrade)
    {
      if fromDatabase {
        var batches, raised, written := CrawlFromDb(articles);
        r := FromDatabase(batches, raised, written);
      } else {
        var runs, stop, written := CrawlFromArg(fetch, articles);
        r := FromArgs(runs, stop, written);
      }
    }

    /**
     * _crawling_from_arg: the walk from the end of the range down to its start. It
     * follows ArgWalk page by page until a page's index rows cannot be written, which
     * ends it with the runs before that page. The start of the range is left at the
     * page of the run that narrowed it, if any. `written` holds what the database
     * writer reported for the list of each run.
     */
    method CrawlFromArg(fetch: int -> IndexResponse, articles: string -> Page)
      returns (runs: seq<PageRun>, stop: Stop, written: seq<seq<Outcome>>)
      requires session.Valid() && Apart()
      modifies this, session, session.Tables(), session.time
      ensures session.Valid() && endIndex == old(endIndex)
      ensures EndsAs(ArgWalk(fetch, articles, board, startDate, fm, old(endIndex), old(startIndex), false), runs, stop)
      ensures startIndex == StartAfter(runs, old(startIndex))
      ensures RunsWritten(runs, written, outputs.database, upgrade)
    {
      var page := endIndex;
      var bound := false;
      var next: Option<Stop> := None;
      runs, written := [], [];
      ghost var whole := ArgWalk(fetch, articles, board, startDate, fm, endIndex, startIndex, false);
      ghost var start0 := startIndex;
      assert [] + whole.0 == whole.0;
      while next.None? && page >= startIndex
        invariant session.Valid() && Apart() && endIndex == old(endIndex)
        invariant startIndex == StartAfter(runs, start0)
        invariant next.None? ==> RunsFrom(whole, runs, ArgWalk(fetch, articles, board, startDate, fm, page, startIndex, bound))
        invariant next.Some? ==> EndsAs(whole, runs, next.value)
        invariant RunsWritten(runs, written, outputs.database, upgrade)
        decreases if next.None? then page - startIndex + 2 else 0
      {
        runs, written, bound, next := ArgPage(fetch, articles, page, bound, whole, start0, runs, written);
        page := page - 1;
      }
      if next.None? {
        ArgWalkBelow(fetch, articles, board, startDate, fm, page, startIndex, bound, whole, runs);
      }
      stop := if next.Some? then next.value else Finished;
    }

    /**
     * One pass of the loop at `page`: the page is fetched and its links read, its index
     * rows written, its articles parsed, filtered by date and handed to the database
     * writer (the JSON file gets the same list). `next` is None when the walk goes on.
     */
    method ArgPage(fetch: int -> IndexResponse, articles: string -> Page, page: int, bound: bool,
                   ghost whole: (seq<PageRun>, Stop), ghost start0: int, runs: seq<PageRun>, written: seq<seq<Outcome>>)
      returns (runs': seq<PageRun>, written': seq<seq<Outcome>>, bound': bool, next: Option<Stop>)
      requires session.Valid() && Apart() && page >= startIndex
      requires RunsFrom(whole, runs, ArgWalk(fetch, articles, board, startDate, fm, page, startIndex, bound))
      requires startIndex == StartAfter(runs, start0)
      requires RunsWritten(runs, written, outputs.database, upgrade)
      modifies this, session, session.Tables(), session.time
      ensures session.Valid() && endIndex == old(endIndex)
      ensures startIndex == StartAfter(runs', start0) && old(startIndex) <= startIndex <= page
      ensures next.None? ==> RunsFrom(whole, runs', ArgWalk(fetch, articles, board, startDate, fm, page - 1, startIndex, bound'))
      ensures next.Some? ==> EndsAs(whole, runs', next.value)
      ensures RunsWritten(runs', written', outputs.database, upgrade)
    {
      ArgAdvance(fetch, articles, board, startDate, fm, page, startIndex, bound, whole, runs);
      runs', written', bound' := runs, written, bound;
      var listed := ListPage(fetch(page), page, bound);
      if listed.None? {
        return runs, written, bound, Some(Raised);
      }
      var ok, _ := WriteIndex(listed.value.0);
      if !ok {
        return runs, written, bound, Some(IndexFailed);
      }
      var run;
      run, runs', written' := ArgRun(listed.value.0, page, articles, start0, runs, written);
      if run.handed.None? {
        return runs', written', bound, Some(Raised);
      }
      bound' := listed.value.1;
      next := None;
    }

    /**
     * The rest of the pass once the index rows are written: the page's articles parsed
     * and filtered by date, the start of the range moved to the page when the filter
     * narrowed it, and the list handed to the database writer.
     */
    method ArgRun(entries: seq<IndexEntry>, page: int, articles: string -> Page, ghost start0: int,
                  runs: seq<PageRun>, written: seq<seq<Outcome>>)
      returns (run: PageRun, runs': seq<PageRun>, written': seq<seq<Outcome>>)
      requires session.Valid() && Apart() && page >= startIndex
      requires startIndex == StartAfter(runs, start0)
      requires RunsWritten(runs, written, outputs.database, upgrade)
      modifies this, session, session.Tables(), session.time
      ensures session.Valid() && endIndex == old(endIndex)
      ensures run == RunOf(entries, page, articles, board, startDate, fm) && runs' == runs + [run]
      ensures startIndex == (if run.handed.Some? && run.handed.value.1 then page else old(startIndex))
      ensures startIndex == StartAfter(runs', start0)
      ensures RunsWritten(runs', written', outputs.database, upgrade)
    {
      run := RunPage(entries, page, articles);
      StartAfterSnoc(runs, run, start0);
      runs' := runs + [run];
      if run.handed.None? {
        RunsWrittenSnoc(runs, written, run, [], outputs.database, upgrade);
        return run, runs', written + [[]];
      }
      if run.handed.value.1 {
        MoveStart(page);
      }
      var outcomes := WriteArticles(run.handed.value.0);
      RunsWrittenSnoc(runs, written, run, outcomes, outputs.database, upgrade);
      written' := written + [outcomes];
    }

    /** start_index set to the page whose articles fell short of the start date. */
    method MoveStart(page: int)
      requires session.Valid() && Apart()
      modifies this
      ensures startIndex == page && endIndex == old(endIndex) && session.Valid()
    {
      startIndex := page;
    }

    /** The page fetched and its children scanned: the entries and the new binding of `link`, or None when it raises. */
    method ListPage(resp: IndexResponse, page: int, bound: bool) returns (listed: Option<(seq<IndexEntry>, bool)>)
      ensures listed == Listed(resp, page, bound)
    {
      if RaisesForStatus(resp.status) || resp.container.None? {
        return None;
      }
      var entries, linkBound, raised := ScanLinks(resp.container.value, page, bound);
      listed := if raised then None else Some((entries, linkBound));
    }

    /**
     * _output_index_to_database for the page's entries under the crawled board: false
     * when it raises, leaving every table as it was; otherwise the index rows are merged
     * by web id and committed, and no other table changes.
     */
    method WriteIndex(entries: seq<IndexEntry>) returns (ok: bool, boardId: nat)
      requires session.Valid()
      modifies session.Tables()
      ensures session.Valid()
      ensures ok <==> !old(session.broken) && (entries == [] || old(session.boards.Get(BoardNamed(board))).Some?)
      ensures !ok ==> session.RowsKept() && session.CommittedKept()
      ensures ok && entries != [] ==> boardId == old(session.boards.Get(BoardNamed(board))).value.id
      ensures ok ==> session.Settled()
      ensures ok ==> session.indexes.rows == UpsertAll(old(session.indexes.rows), old(session.indexes.nextId),
                                                       IndexRows(entries, boardId), IndexWebId, Replace).0
      ensures ok ==>
        && session.users.rows == old(session.users.rows) && session.lastRecords.rows == old(session.lastRecords.rows)
        && session.boards.rows == old(session.boards.rows) && session.articles.rows == old(session.articles.rows)
        && session.histories.rows == old(session.histories.rows) && session.pushes.rows == old(session.pushes.rows)
        && session.ipAsns.rows == old(session.ipAsns.rows)
    {
      ok, boardId := OutputIndex(session, board, entries);
    }

    /** The page's articles parsed in order and passed through the start-date filter. */
    method RunPage(entries: seq<IndexEntry>, page: int, articles: string -> Page) returns (run: PageRun)
      ensures run == RunOf(entries, page, articles, board, startDate, fm)
    {
      var parsed := ParseAll(entries, articles, board, fm);
      var handed: Option<(seq<Parsed>, bool)>;
      if startDate.Some? {
        handed := FilterByDate(parsed, startDate.value, fm);
      } else {
        handed := Some((parsed, false));
      }
      run := PageRun(page, entries, parsed, handed);
    }

    /**
     * The page's list handed to _output_database when the database is an output (the
     * JSON file is not modelled), with what the writer reports; with no database
     * output nothing is written.
     */
    method WriteArticles(list: seq<Parsed>) returns (outcomes: seq<Outcome>)
      requires session.Valid()
      modifies session, session.Tables(), session.time
      ensures session.Valid()
      ensures Handled(if outputs.database then list else [], outcomes, upgrade)
      ensures outputs.database && old(session.broken) && list != [] ==> outcomes == [Aborted]
      ensures !outputs.database ==> outcomes == [] && session.RowsKept()
    {
      outcomes := [];
      if outputs.database {
        outcomes := OutputDatabase(session, list, upgrade, fm);
      }
    }

    /**
     * _crawling_from_db: the board is looked up by name (a missing board raises at
     * board.id), the selected index rows are parsed in order and every twenty results
     * are handed to the database writer, whatever the Output key says; `written` holds
     * what the writer reported for each batch.
     */
    method CrawlFromDb(articles: string -> Page) returns (batches: seq<seq<Parsed>>, raised: bool, written: seq<seq<Outcome>>)
      requires session.Valid()
      modifies session, session.Tables(), session.time
      ensures session.Valid()
      ensures BatchesWritten(batches, written, upgrade)
      ensures old(session.boards.Get(BoardNamed(board))).None? ==> batches == [] && raised
      ensures old(session.boards.Get(BoardNamed(board))).Some? ==>
        var sel := Selected(old(session.indexes.rows), old(session.articles.rows),
                            old(session.boards.Get(BoardNamed(board))).value.id, upgrade);
        var r := DbParsed(sel, old(session.boards.rows), articles, board, fm);
        batches == FullBatches(r.0, 20) && raised == r.1
    {
      var found := session.boards.Get(BoardNamed(board));
      if found.None? {
        return [], true, [];
      }
      var boards := session.boards.rows;
      var sel := Selected(session.indexes.rows, session.articles.rows, found.value.id, upgrade);
      batches, raised, written := ParseInBatches(sel, boards, articles);
    }

    /** The loop over the selected rows: each parsed in order, every twentieth result closing a batch that is written. */
    method ParseInBatches(sel: seq<Stored<ArticleIndex>>, boards: seq<Stored<Board>>, articles: string -> Page)
      returns (batches: seq<seq<Parsed>>, raised: bool, written: seq<seq<Outcome>>)
      requires session.Valid()
      modifies session, session.Tables(), session.time
      ensures session.Valid()
      ensures batches == FullBatches(DbParsed(sel, boards, articles, board, fm).0, 20)
      ensures raised == DbParsed(sel, boards, articles, board, fm).1
      ensures BatchesWritten(batches, written, upgrade)
    {
      ghost var whole := DbParsed(sel, boards, articles, board, fm);
      ghost var done: seq<Parsed> := [];
      var batch: seq<Parsed> := [];
      batches, raised, written := [], false, [];
      var i := 0;
      assert sel[0..] == sel;
      assert [] + whole.0 == whole.0;
      while i < |sel| && !raised
        invariant session.Valid()
        invariant DbProgress(whole, done, sel, i, raised, boards, articles, board, fm)
        invariant Batched(done, batches, batch)
        invariant BatchesWritten(batches, written, upgrade)
      {
        done, batches, batch, raised, written := DbRow(sel, i, boards, articles, whole, done, batches, batch, written);
        i := i + 1;
      }
      DbProgressEnd(whole, done, sel, i, raised, boards, articles, board, fm);
    }

    /** One pass of the loop: row `i` parsed, its result added to the batch, and a batch of twenty written and emptied. */
    method DbRow(sel: seq<Stored<ArticleIndex>>, i: nat, boards: seq<Stored<Board>>, articles: string -> Page,
                 ghost whole: (seq<Parsed>, bool), ghost done: seq<Parsed>, batches: seq<seq<Parsed>>, batch: seq<Parsed>,
                 written: seq<seq<Outcome>>)
      returns (ghost done': seq<Parsed>, batches': seq<seq<Parsed>>, batch': seq<Parsed>, raised: bool, written': seq<seq<Outcome>>)
      requires i < |sel| && session.Valid()
      requires DbProgress(whole, done, sel, i, false, boards, articles, board, fm) && Batched(done, batches, batch)
      requires BatchesWritten(batches, written, upgrade)
      modifies session, session.Tables(), session.time
      ensures session.Valid()
      ensures DbProgress(whole, done', sel, i + 1, raised, boards, articles, board, fm) && Batched(done', batches', batch')
      ensures BatchesWritten(batches', written', upgrade)
    {
      var p := DbParse(sel[i], boards, articles);
      DbProgressStep(whole, done, sel, i, boards, articles, board, fm);
      done', batches', batch', raised, written' := done, batches, batch, false, written;
      if p.None? {
        raised := true;
        return;
      }
      BatchedSnoc(done, batches, batch, p.value);
      done' := done + [p.value];
      batch' := batch + [p.value];
      if |batch'| == 20 {
        var outcomes := WriteBatch(batch');
        BatchesWrittenSnoc(batches, written, batch', outcomes, upgrade);
        batches' := batches + [batch'];
        written' := written + [outcomes];
        batch' := [];
      }
    }

    /** A full batch of twenty handed to _output_database, with what the writer reports. */
    method WriteBatch(batch: seq<Parsed>) returns (outcomes: seq<Outcome>)
      requires session.Valid()
      modifies session, session.Tables(), session.time
      ensures session.Valid()
      ensures Handled(batch, outcomes, upgrade)
      ensures old(session.broken) && batch != [] ==> outcomes == [Aborted]
    {
      outcomes := OutputDatabase(session, batch, upgrade, fm);
    }

    /** One row of the loop: the link built from the row's board and web id, fetched and parsed. */
    method DbParse(x: Stored<ArticleIndex>, boards: seq<Stored<Board>>, articles: string -> Page) returns (p: Option<Parsed>)
      ensures p == DbParseOne(x, boards, articles, board, fm)
    {
      var name := BoardName(boards, x.val.boardId);
      if name.None? {
        return None;
      }
      var link := ArticleLink(name.value, x.val.webId);
      p := Parse(articles(link), link, x.val.webId, board, fm);
    }
  }
}
