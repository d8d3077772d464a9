/**
 * crawler/article_index.py, PttArticleIndexCrawler: walks a board's index pages from
 * the newest page of its range down to the oldest and records, for every article the
 * page lists, the page it was listed on (an ArticleIndex row keyed by web id).
 */
module IndexWalk {
  import opened Wrappers
  import opened Gateway
  import opened Records
  import opened Listing
  import ArticleSync

  // ---------------------------------------------------------------- one index page

  /** The objects one readable entry adds: none when the board is not stored (board.id raises inside the bare try). */
  function EntryIndexes(href: string, boardId: Option<nat>, page: int): (r: seq<ArticleIndex>)
    ensures boardId.None? ==> r == []
    ensures boardId.Some? ==> r == [ArticleIndex(WebIdOf(href), boardId.value, page)]
  {
    if boardId.Some? then [ArticleIndex(WebIdOf(href), boardId.value, page)] else []
  }

  /**
   * The loop over a page's child divs: the objects it collects and whether the local
   * `link` is bound afterwards (`bound` says whether it was bound before), or None when
   * it raises. A div without a class list raises inside the outer try, whose handler
   * reads `link`: that is logged if `link` is bound and raises UnboundLocalError if not.
   */
  function PageIndexes(ds: seq<Div>, boardId: Option<nat>, page: int, bound: bool): Option<(seq<ArticleIndex>, bool)>
  {
    if ds == [] then Some(([], bound))
    else match ds[0].classes
      case None => if bound then PageIndexes(ds[1..], boardId, page, bound) else None
      case Some(cs) =>
        if "r-list-sep" in cs then Some(([], bound))
        else if "r-ent" in cs && ds[0].href.Some? then
          Prepend(EntryIndexes(ds[0].href.value, boardId, page), PageIndexes(ds[1..], boardId, page, true))
        else PageIndexes(ds[1..], boardId, page, bound)
  }

  /** The index objects of the given links, all on one page of one board. */
  function IndexesOf(links: seq<string>, boardId: Option<nat>, page: int): (r: seq<ArticleIndex>)
    ensures boardId.None? ==> r == []
    ensures boardId.Some? ==>
      |r| == |links| && forall k | 0 <= k < |links| :: r[k] == ArticleIndex(WebIdOf(links[k]), boardId.value, page)
  {
    if boardId.None? then []
    else seq(|links|, k requires 0 <= k < |links| => ArticleIndex(WebIdOf(links[k]), boardId.value, page))
  }

  lemma IndexesOfCons(h: string, links: seq<string>, boardId: Option<nat>, page: int)
    ensures IndexesOf([h] + links, boardId, page) == EntryIndexes(h, boardId, page) + IndexesOf(links, boardId, page)
  {
    if boardId.Some? {
      assert forall k | 1 <= k < |links| + 1 :: ([h] + links)[k] == links[k - 1];
    }
  }

  /** A div that raises while `link` is still unbound: one without a class list, before any separator or readable entry. */
  predicate RaisesUnbound(ds: seq<Div>) {
    ds != [] && !IsSep(ds[0])
    && (ds[0].classes.None? || (!IsReadableEntry(ds[0]) && RaisesUnbound(ds[1..])))
  }

  /**
   * A page that is scanned to its end yields one object per readable entry before the
   * first separator, in page order, each with the page number, and leaves `link`
   * bound exactly when it was bound already or such an entry exists.
   */
  lemma {:induction false} PageIndexesEntries(ds: seq<Div>, boardId: Option<nat>, page: int, bound: bool)
    ensures var r := PageIndexes(ds, boardId, page, bound);
      r.Some? ==> r.value == (IndexesOf(EntryLinks(BeforeSep(ds)), boardId, page), bound || EntryLinks(BeforeSep(ds)) != [])
  {
    if ds != [] {
      var rest := ds[1..];
      assert ds == [ds[0]] + rest;
      match ds[0].classes
      case None =>
        PageIndexesEntries(rest, boardId, page, bound);
      case Some(cs) =>
        if "r-list-sep" !in cs {
          assert BeforeSep(ds) == [ds[0]] + BeforeSep(rest);
          assert ([ds[0]] + BeforeSep(rest))[1..] == BeforeSep(rest);
          if "r-ent" in cs && ds[0].href.Some? {
            PageIndexesEntries(rest, boardId, page, true);
            IndexesOfCons(ds[0].href.value, EntryLinks(BeforeSep(rest)), boardId, page);
          } else {
            PageIndexesEntries(rest, boardId, page, bound);
          }
        }
    }
  }

  /** The scan raises exactly when `link` is unbound and a class-less div comes before any separator or readable entry. */
  lemma {:induction false} PageIndexesRaises(ds: seq<Div>, boardId: Option<nat>, page: int, bound: bool)
    ensures PageIndexes(ds, boardId, page, bound).None? <==> !bound && RaisesUnbound(ds)
  {
    if ds != [] {
      match ds[0].classes
      case None =>
        PageIndexesRaises(ds[1..], boardId, page, bound);
      case Some(cs) =>
        if "r-list-sep" !in cs {
          if "r-ent" in cs && ds[0].href.Some? {
            PageIndexesRaises(ds[1..], boardId, page, true);
          } else {
            PageIndexesRaises(ds[1..], boardId, page, bound);
          }
        }
    }
  }

  /** The loop over a page's children, collecting the index objects of its entries. */
  method ScanPage(ds: seq<Div>, boardId: Option<nat>, page: int, bound: bool)
    returns (objs: seq<ArticleIndex>, linkBound: bool, raised: bool)
    ensures PageIndexes(ds, boardId, page, bound) == if raised then None else Some((objs, linkBound))
  {
    objs, linkBound, raised := [], bound, false;
    var i := 0;
    assert ds[0..] == ds;
    PrependNothing(PageIndexes(ds, boardId, page, bound));
    while i < |ds|
      invariant 0 <= i <= |ds|
      invariant PageIndexes(ds, boardId, page, bound) == Prepend(objs, PageIndexes(ds[i..], boardId, page, linkBound))
    {
      var d := ds[i];
      assert ds[i..][1..] == ds[i + 1..];
      match d.classes {
        case None =>
          if !linkBound {
            raised := true;
            return;
          }
        case Some(cs) =>
          if "r-list-sep" in cs {
            assert objs + [] == objs;
            return;
          }
          if "r-ent" in cs && d.href.Some? {
            var found := EntryIndexes(d.href.value, boardId, page);
            PrependAppend(objs, found, PageIndexes(ds[i + 1..], boardId, page, true));
            objs := objs + found;
            linkBound := true;
          }
      }
      i := i + 1;
    }
    assert objs + [] == objs;
  }

  // ---------------------------------------------------------------- the walk

  /** The loop body at `page`: the page's objects and the new binding of `link`, or None when it raises. */
  function PageOutcome(resp: IndexResponse, boardId: Option<nat>, page: int, bound: bool): Option<(seq<ArticleIndex>, bool)> {
    if RaisesForStatus(resp.status) || resp.container.None? then None
    else PageIndexes(resp.container.value, boardId, page, bound)
  }

  /**
   * crawling() from page `end` down to page `start`: the object batch written for
   * each page in turn, and whether a page raised (which ends the walk).
   */
  function Walk(fetch: int -> IndexResponse, boardId: Option<nat>, end: int, start: int, bound: bool)
    : (r: (seq<seq<ArticleIndex>>, bool))
    ensures |r.0| <= (if end >= start then end - start + 1 else 0)
    ensures !r.1 ==> |r.0| == (if end >= start then end - start + 1 else 0)
    decreases if end >= start then end - start + 1 else 0
  {
    if end < start then ([], false)
    else match PageOutcome(fetch(end), boardId, end, bound)
      case None => ([], true)
      case Some((objs, b)) =>
        var rest := Walk(fetch, boardId, end - 1, start, b);
        ([objs] + rest.0, rest.1)
  }

  /** An index object of page `page` under the board's id. */
  predicate OnPage(x: ArticleIndex, boardId: Option<nat>, page: int) {
    boardId.Some? && x.boardId == boardId.value && x.index == page
  }

  /** The k-th batch holds objects of page end - k only, all under the board's id. */
  predicate PagedFrom(bs: seq<seq<ArticleIndex>>, boardId: Option<nat>, end: int) {
    forall k, j | 0 <= k < |bs| && 0 <= j < |bs[k]| :: OnPage(bs[k][j], boardId, end - k)
  }

  lemma PagedFromCons(objs: seq<ArticleIndex>, rest: seq<seq<ArticleIndex>>, boardId: Option<nat>, end: int)
    requires forall j | 0 <= j < |objs| :: OnPage(objs[j], boardId, end)
    requires PagedFrom(rest, boardId, end - 1)
    ensures PagedFrom([objs] + rest, boardId, end)
  {
    var bs: seq<seq<ArticleIndex>> := [objs] + rest;
    forall k: int, j: int | 0 <= k < |bs| && 0 <= j < |bs[k]|
      ensures OnPage(bs[k][j], boardId, end - k)
    {
      if k == 0 {
        assert bs[k][j] == objs[j];
      } else {
        assert bs[k][j] == rest[k - 1][j];
        assert OnPage(rest[k - 1][j], boardId, end - 1 - (k - 1));
      }
    }
  }

  /**
   * A walk that does not raise writes one batch per page of the range, one that raises
   * stops inside the range, and the k-th batch holds the objects of page end - k.
   */
  lemma {:induction false} WalkPages(fetch: int -> IndexResponse, boardId: Option<nat>, end: int, start: int, bound: bool)
    ensures var (bs, raised) := Walk(fetch, boardId, end, start, bound);
      (!raised ==> |bs| == if end >= start then end - start + 1 else 0)
      && (raised ==> end - |bs| >= start)
      && PagedFrom(bs, boardId, end)
    decreases if end >= start then end - start + 1 else 0
  {
    if end >= start {
      match PageOutcome(fetch(end), boardId, end, bound)
      case None =>
      case Some((objs, b)) =>
        var ds := fetch(end).container.value;
        assert PageIndexes(ds, boardId, end, bound) == Some((objs, b));
        PageIndexesEntries(ds, boardId, end, bound);
        WalkPages(fetch, boardId, end - 1, start, b);
        var links := EntryLinks(BeforeSep(ds));
        assert objs == IndexesOf(links, boardId, end);
        forall j | 0 <= j < |objs| ensures OnPage(objs[j], boardId, end) {
          assert objs[j] == ArticleIndex(WebIdOf(links[j]), boardId.value, end);
        }
        PagedFromCons(objs, Walk(fetch, boardId, end - 1, start, b).0, boardId, end);
    }
  }

  /** The walk `whole` is `done` followed by the walk `rest`. */
  predicate WalkFrom(whole: (seq<seq<ArticleIndex>>, bool), done: seq<seq<ArticleIndex>>, rest: (seq<seq<ArticleIndex>>, bool)) {
    whole == (done + rest.0, rest.1)
  }

  lemma WalkFromStep(whole: (seq<seq<ArticleIndex>>, bool), done: seq<seq<ArticleIndex>>, objs: seq<ArticleIndex>,
                     rest: (seq<seq<ArticleIndex>>, bool))
    requires WalkFrom(whole, done, ([objs] + rest.0, rest.1))
    ensures WalkFrom(whole, done + [objs], rest)
  {
    assert done + ([objs] + rest.0) == (done + [objs]) + rest.0;
  }

  /** Walking one more page of the range: either the walk raises there, or the page's batch is done. */
  lemma WalkAdvance(fetch: int -> IndexResponse, boardId: Option<nat>, end: int, start: int, bound: bool,
                    whole: (seq<seq<ArticleIndex>>, bool), done: seq<seq<ArticleIndex>>)
    requires end >= start && WalkFrom(whole, done, Walk(fetch, boardId, end, start, bound))
    ensures var o := PageOutcome(fetch(end), boardId, end, bound);
      (o.None? ==> WalkFrom(whole, done, ([], true)))
      && (o.Some? ==> WalkFrom(whole, done + [o.value.0], Walk(fetch, boardId, end - 1, start, o.value.1)))
  {
    WalkUnfold(fetch, boardId, end, start, bound);
    var o := PageOutcome(fetch(end), boardId, end, bound);
    if o.Some? {
      WalkFromStep(whole, done, o.value.0, Walk(fetch, boardId, end - 1, start, o.value.1));
    }
  }

  /** One step of the walk at a page of the range. */
  lemma WalkUnfold(fetch: int -> IndexResponse, boardId: Option<nat>, end: int, start: int, bound: bool)
    requires end >= start
    ensures var o := PageOutcome(fetch(end), boardId, end, bound);
      (o.None? ==> Walk(fetch, boardId, end, start, bound) == ([], true))
      && (o.Some? ==> var rest := Walk(fetch, boardId, end - 1, start, o.value.1);
            Walk(fetch, boardId, end, start, bound) == ([o.value.0] + rest.0, rest.1))
  {
  }

  /** The index table after merging the batches one after the other, each by web id. */
  function MergeBatches(rows: seq<Stored<ArticleIndex>>, nextId: nat, bs: seq<seq<ArticleIndex>>)
    : (r: (seq<Stored<ArticleIndex>>, nat))
    ensures |rows| <= |r.0| && r.1 == nextId + |r.0| - |rows|
  {
    if bs == [] then (rows, nextId)
    else
      var prev := MergeBatches(rows, nextId, bs[..|bs| - 1]);
      UpsertAllCounts(prev.0, prev.1, bs[|bs| - 1], IndexWebId, Replace);
      UpsertAll(prev.0, prev.1, bs[|bs| - 1], IndexWebId, Replace)
  }

  lemma MergeBatchesSnoc(rows: seq<Stored<ArticleIndex>>, nextId: nat, bs: seq<seq<ArticleIndex>>, b: seq<ArticleIndex>)
    ensures var prev := MergeBatches(rows, nextId, bs);
      MergeBatches(rows, nextId, bs + [b]) == UpsertAll(prev.0, prev.1, b, IndexWebId, Replace)
  {
    assert (bs + [b])[..|bs|] == bs;
  }

  /** With unique web ids, a merge batch keeps every web id that already had a row. */
  lemma {:induction false} UpsertAllKeepsKeys(rows: seq<Stored<ArticleIndex>>, nextId: nat, objs: seq<ArticleIndex>, id: string)
    requires KeysUnique(rows, IndexWebId) && KeyIndex(rows, IndexWebId, id).Some?
    ensures var (rs, n) := UpsertAll(rows, nextId, objs, IndexWebId, Replace);
      KeysUnique(rs, IndexWebId) && KeyIndex(rs, IndexWebId, id).Some?
  {
    assert KeepsKey(IndexWebId, Replace);
    if objs != [] {
      var init := objs[..|objs| - 1];
      UpsertAllKeepsKeys(rows, nextId, init, id);
      var (ps, pn) := UpsertAll(rows, nextId, init, IndexWebId, Replace);
      UpsertStep(ps, pn, objs[|objs| - 1], IndexWebId, Replace);
      var p := KeyIndex(ps, IndexWebId, id).value;
      var (rs, n) := UpsertAll(rows, nextId, objs, IndexWebId, Replace);
      assert IndexWebId(rs[p].val) == id;
    }
  }

  /** Once the walk has merged its batches, every article listed on a walked page has an index row. */
  lemma {:induction false} MergeBatchesCovers(rows: seq<Stored<ArticleIndex>>, nextId: nat, bs: seq<seq<ArticleIndex>>)
    requires KeysUnique(rows, IndexWebId)
    ensures var (rs, n) := MergeBatches(rows, nextId, bs);
      KeysUnique(rs, IndexWebId)
      && forall k, j | 0 <= k < |bs| && 0 <= j < |bs[k]| :: KeyIndex(rs, IndexWebId, bs[k][j].webId).Some?
  {
    assert KeepsKey(IndexWebId, Replace);
    if bs != [] {
      var init := bs[..|bs| - 1];
      var last := bs[|bs| - 1];
      MergeBatchesCovers(rows, nextId, init);
      var (ps, pn) := MergeBatches(rows, nextId, init);
      var (rs, n) := MergeBatches(rows, nextId, bs);
      UpsertAllCovers(ps, pn, last, IndexWebId, Replace);
      forall k, j | 0 <= k < |bs| && 0 <= j < |bs[k]| ensures KeyIndex(rs, IndexWebId, bs[k][j].webId).Some? {
        if k == |bs| - 1 {
          assert last[j] in last;
        } else {
          assert init[k] == bs[k];
          UpsertAllKeepsKeys(ps, pn, last, bs[k][j].webId);
        }
      }
    }
  }

  // ---------------------------------------------------------------- the range

  /** Python truthiness of an optional page number: None and 0 are both false. */
  predicate Truthy(v: Option<int>) {
    v.Some? && v.value != 0
  }

  /**
   * __init__: (start_index, end_index). Before mode walks from the explicit index, else
   * the stored minimum page, else the last page, down to page 1; after mode walks from
   * the last page down to the explicit index, else the stored maximum, else the last page.
   */
  function InitialRange(before: bool, index: Option<int>, stored: Option<int>, last: int): (r: (int, int))
    ensures before ==> r.0 == 1
    ensures !before ==> r.1 == last
    ensures var bound := if before then r.1 else r.0;
      && (Truthy(index) ==> bound == index.value)
      && (!Truthy(index) && Truthy(stored) ==> bound == stored.value)
      && (!Truthy(index) && !Truthy(stored) ==> bound == last)
  {
    var bound := if Truthy(index) then index.value else if Truthy(stored) then stored.value else last;
    if before then (1, bound) else (bound, last)
  }

  /** The page numbers stored for the board. */
  function BoardPages(rows: seq<Stored<ArticleIndex>>, boardId: nat): (r: seq<int>)
    ensures forall i | 0 <= i < |rows| && rows[i].val.boardId == boardId :: rows[i].val.index in r
    ensures forall p | p in r :: exists i | 0 <= i < |rows| :: rows[i].val.boardId == boardId && rows[i].val.index == p
  {
    if rows == [] then []
    else
      var rest := BoardPages(rows[1..], boardId);
      assert forall i | 1 <= i < |rows| :: rows[i] == rows[1..][i - 1];
      if rows[0].val.boardId == boardId then [rows[0].val.index] + rest else rest
  }

  /** func.min (before) or func.max (after) over the pages; None when there are none. */
  function Extreme(pages: seq<int>, before: bool): (r: Option<int>)
    ensures r.None? <==> pages == []
    ensures r.Some? ==> r.value in pages
    ensures r.Some? ==> forall k | 0 <= k < |pages| :: if before then r.value <= pages[k] else pages[k] <= r.value
  {
    if pages == [] then None
    else match Extreme(pages[1..], before)
      case None => Some(pages[0])
      case Some(m) =>
        assert forall k | 1 <= k < |pages| :: pages[k] == pages[1..][k - 1];
        if before then Some(if pages[0] <= m then pages[0] else m)
        else Some(if pages[0] >= m then pages[0] else m)
  }

  /**
   * Without an explicit index, a before-mode walk covers every page below all the
   * board's stored pages, and an after-mode walk every page from the highest stored
   * page up to the last one; with nothing stored it covers the whole board (before)
   * or only the last page (after).
   */
  lemma RangeFromStoredPages(before: bool, index: Option<int>, pages: seq<int>, last: int)
    requires !Truthy(index)
    ensures var (start, end) := InitialRange(before, index, Extreme(pages, before), last);
      (before ==> start == 1)
      && (!before ==> end == last)
      && (pages == [] ==> (start, end) == (if before then (1, last) else (last, last)))
      && (Truthy(Extreme(pages, before)) ==>
            (before ==> end in pages && forall k | 0 <= k < |pages| :: end <= pages[k])
            && (!before ==> start in pages && forall k | 0 <= k < |pages| :: pages[k] <= start))
  {
  }

  /**
   * _getDBLastPage: get_or_create of the board (which commits), then the minimum
   * (before) or maximum (after) page stored for it, or None when nothing is stored.
   */
  method DBLastPage(boards: Table<Board>, indexes: Table<ArticleIndex>, name: string, before: bool) returns (page: Option<int>)
    requires boards.Valid() && boards.admits == AnyRow && boards.rows == boards.committed
    modifies boards
    ensures boards.Valid() && boards.rows == boards.committed
    ensures boards.Get(ArticleSync.BoardNamed(name)).Some?
    ensures old(boards.Get(ArticleSync.BoardNamed(name))).Some? ==> boards.rows == old(boards.rows)
    ensures old(boards.Get(ArticleSync.BoardNamed(name))).None? ==>
      boards.rows == old(boards.rows) + [Stored(old(boards.nextId), Board(name))]
    ensures page == Extreme(BoardPages(indexes.rows, boards.Get(ArticleSync.BoardNamed(name)).value.id), before)
  {
    var ok, board, created := boards.GetOrCreate(ArticleSync.BoardNamed(name), Board(name), true);
    if created {
      assert boards.rows[|boards.rows| - 1] == board;
    }
    assert boards.Get(ArticleSync.BoardNamed(name)) == Some(board);
    page := Extreme(BoardPages(indexes.rows, board.id), before);
  }

  /** The board's id, as `board.id` reads it, when the board is stored. */
  function BoardIdOf(board: Option<Stored<Board>>): Option<nat> {
    if board.Some? then Some(board.value.id) else None
  }

  class IndexCrawler {
    /** The two tables of the crawler's session it reads and writes. */
    const boards: Table<Board>
    const indexes: Table<ArticleIndex>
    const boardName: string
    const before: bool
    var startIndex: int
    var endIndex: int

    /** Nothing is pending between statements: every write commits. */
    ghost predicate Valid()
      reads boards, indexes
    {
      boards.Valid() && indexes.Valid() && boards.admits == AnyRow && indexes.admits == AnyRow
      && boards.rows == boards.committed && indexes.rows == indexes.committed
    }

    /**
     * __init__, with the board's front page (what _getLastPage fetches) as `frontPage`.
     * The stored page is looked up only when no index is given.
     */
    constructor (boards: Table<Board>, indexes: Table<ArticleIndex>, boardName: string, before: bool,
                 index: Option<int>, frontPage: string)
      requires boards.Valid() && indexes.Valid() && boards.admits == AnyRow && indexes.admits == AnyRow
      requires boards.rows == boards.committed && indexes.rows == indexes.committed
      modifies boards
      ensures Valid() && this.boards == boards && this.indexes == indexes
      ensures this.boardName == boardName && this.before == before
      ensures Truthy(index) ==>
        boards.rows == old(boards.rows)
        && (startIndex, endIndex) == InitialRange(before, index, None, LastPageOf(frontPage))
      ensures !Truthy(index) ==>
        boards.Get(ArticleSync.BoardNamed(boardName)).Some?
        && (startIndex, endIndex) == InitialRange(before, index,
             Extreme(BoardPages(indexes.rows, boards.Get(ArticleSync.BoardNamed(boardName)).value.id), before),
             LastPageOf(frontPage))
    {
      var stored := None;
      if !Truthy(index) {
        stored := DBLastPage(boards, indexes, boardName, before);
      }
      var last := LastPageOf(frontPage);
      var range := InitialRange(before, index, stored, last);
      this.boards, this.indexes, this.boardName, this.before := boards, indexes, boardName, before;
      startIndex, endIndex := range.0, range.1;
    }

    /** _output_database: bulk_update, which merges by web id and commits. */
    method OutputPage(objs: seq<ArticleIndex>)
      requires Valid()
      modifies indexes
      ensures Valid()
      ensures (indexes.rows, indexes.nextId) == UpsertAll(old(indexes.rows), old(indexes.nextId), objs, IndexWebId, Replace)
    {
      ghost var rows, nextId := indexes.rows, indexes.nextId;
      var ok := indexes.BulkUpdate(objs, IndexWebId, Replace, true);
      assert ok by {
        var (rs, n) := UpsertAll(rows, nextId, objs, IndexWebId, Replace);
        assert forall i | 0 <= i < |rs| :: AnyRow(rs[i].val);
      }
    }

    /**
     * One pass of crawling()'s loop body at page end_index: the page is requested and
     * scanned, and its objects are merged and committed, unless the page raises.
     */
    method CrawlPage(resp: IndexResponse, boardId: Option<nat>, bound: bool)
      returns (objs: seq<ArticleIndex>, linkBound: bool, raised: bool)
      requires Valid()
      modifies indexes
      ensures Valid()
      ensures PageOutcome(resp, boardId, endIndex, bound) == if raised then None else Some((objs, linkBound))
      ensures raised ==> indexes.rows == old(indexes.rows) && indexes.nextId == old(indexes.nextId)
      ensures !raised ==>
        (indexes.rows, indexes.nextId) == UpsertAll(old(indexes.rows), old(indexes.nextId), objs, IndexWebId, Replace)
    {
      objs, linkBound, raised := [], bound, true;
      if RaisesForStatus(resp.status) || resp.container.None? {
        return;
      }
      objs, linkBound, raised := ScanPage(resp.container.value, boardId, endIndex, bound);
      if !raised {
        OutputPage(objs);
      }
    }

    /**
     * crawling(), with `fetch` standing for the request of each index page. The board is
     * looked up once; every page's objects are merged and committed before the next page;
     * a page that raises ends the walk with end_index at that page.
     */
    method Crawl(fetch: int -> IndexResponse) returns (raised: bool)
      requires Valid()
      modifies this, indexes
      ensures Valid() && startIndex == old(startIndex)
      ensures var (bs, r) := Walk(fetch, BoardIdOf(old(boards.Get(ArticleSync.BoardNamed(boardName)))), old(endIndex), startIndex, false);
        raised == r
        && (indexes.rows, indexes.nextId) == MergeBatches(old(indexes.rows), old(indexes.nextId), bs)
        && endIndex == old(endIndex) - |bs|
      ensures !raised ==> endIndex == if old(endIndex) >= startIndex then startIndex - 1 else old(endIndex)
    {
      var board := boards.Get(ArticleSync.BoardNamed(boardName));
      var boardId := BoardIdOf(board);
      ghost var batches: seq<seq<ArticleIndex>> := [];
      ghost var rows0, next0 := indexes.rows, indexes.nextId;
      ghost var whole := Walk(fetch, boardId, endIndex, startIndex, false);
      var bound := false;
      raised := false;
      assert [] + whole.0 == whole.0;
      while endIndex >= startIndex
        invariant Valid() && startIndex == old(startIndex)
        invariant endIndex == old(endIndex) - |batches|
        invariant old(endIndex) >= startIndex ==> endIndex >= startIndex - 1
        invariant WalkFrom(whole, batches, Walk(fetch, boardId, endIndex, startIndex, bound))
        invariant (indexes.rows, indexes.nextId) == MergeBatches(rows0, next0, batches)
        decreases endIndex - startIndex
      {
        var objs, failed;
        objs, bound, failed := CrawlStep(fetch, boardId, bound, whole, batches, rows0, next0);
        if failed {
          assert batches + [] == batches;
          return true;
        }
        batches := batches + [objs];
      }
      assert batches + [] == batches;
    }

    /** The loop body of crawling() at end_index, carrying the walk's bookkeeping along. */
    method CrawlStep(fetch: int -> IndexResponse, boardId: Option<nat>, bound: bool,
                     ghost whole: (seq<seq<ArticleIndex>>, bool), ghost batches: seq<seq<ArticleIndex>>,
                     ghost rows0: seq<Stored<ArticleIndex>>, ghost next0: nat)
      returns (objs: seq<ArticleIndex>, linkBound: bool, raised: bool)
      requires Valid() && endIndex >= startIndex
      requires WalkFrom(whole, batches, Walk(fetch, boardId, endIndex, startIndex, bound))
      requires (indexes.rows, indexes.nextId) == MergeBatches(rows0, next0, batches)
      modifies this, indexes
      ensures Valid() && startIndex == old(startIndex)
      ensures raised ==>
        endIndex == old(endIndex) && WalkFrom(whole, batches, ([], true))
        && (indexes.rows, indexes.nextId) == MergeBatches(rows0, next0, batches)
      ensures !raised ==>
        endIndex == old(endIndex) - 1
        && WalkFrom(whole, batches + [objs], Walk(fetch, boardId, endIndex, startIndex, linkBound))
        && (indexes.rows, indexes.nextId) == MergeBatches(rows0, next0, batches + [objs])
    {
      objs, linkBound, raised := CrawlPage(fetch(endIndex), boardId, bound);
      WalkAdvance(fetch, boardId, endIndex, startIndex, bound, whole, batches);
      if raised {
        return;
      }
      MergeBatchesSnoc(rows0, next0, batches, objs);
      endIndex := endIndex - 1;
    }
  }
}
