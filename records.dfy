/**
 * The rows of the crawler's database (models/article.py, models/user.py,
 * models/asn.py): one datatype per mapped class, a NOT NULL check per table,
 * and the orderings the ORM relationships load their children in.
 *
 * Columns the declarations mark nullable, and NOT NULL columns the crawler may
 * fill with None, are `Option`s; the table's admission predicate says which of
 * them must be set. Ids are the surrogate ids of `Gateway.Stored`, so a foreign
 * key is a `nat`.
 */
module Records {
  import opened Wrappers
  import opened Gateway

  /** A datetime read from the clock or parsed from a page, on a totally ordered scale. */
  type Instant = int

  /**
   * What datetime.strptime(s, "%m/%d %M:%S") builds: the year is 1900 and the hour
   * is 0, so the two numbers after the blank land in the minute and second fields.
   */
  datatype PushStamp = PushStamp(month: int, day: int, minute: int, second: int)

  /** Chronological order of push stamps within their one year. */
  function StampKey(p: PushStamp): int {
    ((p.month * 32 + p.day) * 60 + p.minute) * 60 + p.second
  }

  datatype User = User(username: string, loginTimes: Option<int>, validArticleCount: Option<int>)

  datatype UserLastRecord = UserLastRecord(userId: nat, lastLoginDatetime: Instant, lastLoginIp: string, createdAt: Instant)

  datatype Board = Board(name: string)

  datatype Article = Article(webId: string, userId: nat, boardId: nat, postDatetime: Instant, postIp: Option<string>)

  datatype ArticleHistory = ArticleHistory(articleId: nat, title: string, content: string, startAt: Instant, endAt: Instant)

  datatype Push = Push(historyId: nat, floor: int, tag: string, userId: nat, content: string, ip: Option<string>, datetime: PushStamp)

  /** An address and what the registry lookup said about it; every field but the address may be unset. */
  datatype IpAsn = IpAsn(ip: string, asn: Option<string>, asnDate: Option<Instant>, registry: Option<string>,
                         cidr: Option<string>, countryCode: Option<string>, description: Option<string>, raw: Option<string>)

  /** Which list page of a board an article link was found on. */
  datatype ArticleIndex = ArticleIndex(webId: string, boardId: nat, index: int)

  /** article.post_ip is NOT NULL (models/article.py). */
  predicate ArticleAdmits(a: Article) {
    a.postIp.Some?
  }

  /** Every other table's NOT NULL columns are typed so that they cannot be unset. */
  predicate AnyRow<R>(r: R) {
    true
  }

  /** A row with only the address set: what the crawlers insert before the address is looked up. */
  function Placeholder(ip: string): (r: IpAsn)
    ensures r.ip == ip && r.asn.None? && r.asnDate.None? && r.registry.None?
    ensures r.cidr.None? && r.countryCode.None? && r.description.None? && r.raw.None?
  {
    IpAsn(ip, None, None, None, None, None, None, None)
  }

  // ---------------------------------------------------------------- relationship orderings

  predicate SortedDesc<R>(s: seq<Stored<R>>, key: R -> int) {
    forall i, j | 0 <= i < j < |s| :: key(s[i].val) >= key(s[j].val)
  }

  /** Puts x before the first element whose key does not exceed its own. */
  function InsertDesc<R>(x: Stored<R>, s: seq<Stored<R>>, key: R -> int): (r: seq<Stored<R>>)
    requires SortedDesc(s, key)
    ensures SortedDesc(r, key)
    ensures multiset(r) == multiset(s) + multiset{x}
    ensures |r| == |s| + 1
    ensures r[0] == x || (s != [] && r[0] == s[0])
  {
    if s == [] || key(x.val) >= key(s[0].val) then
      SortedCons(x, s, key);
      [x] + s
    else
      var rest := InsertDesc(x, s[1..], key);
      assert s == [s[0]] + s[1..];
      SortedCons(s[0], rest, key);
      [s[0]] + rest
  }

  /** A head whose key is at least that of the sorted tail's first element keeps the order. */
  lemma SortedCons<R>(y: Stored<R>, r: seq<Stored<R>>, key: R -> int)
    requires SortedDesc(r, key) && (r == [] || key(y.val) >= key(r[0].val))
    ensures SortedDesc([y] + r, key)
  {
    var yr := [y] + r;
    forall i, j | 0 <= i < j < |yr| ensures key(yr[i].val) >= key(yr[j].val) {
      if i > 0 {
        assert yr[i] == r[i - 1] && yr[j] == r[j - 1];
      } else {
        assert yr[j] == r[j - 1];
      }
    }
  }

  /**
   * ORDER BY key DESC. Ties keep insertion order, one of the orders the database may
   * return them in.
   */
  function SortDesc<R>(s: seq<Stored<R>>, key: R -> int): (r: seq<Stored<R>>)
    ensures SortedDesc(r, key)
    ensures multiset(r) == multiset(s)
    ensures |r| == |s|
  {
    if s == [] then []
    else
      assert s == [s[0]] + s[1..];
      InsertDesc(s[0], SortDesc(s[1..], key), key)
  }

  /**
   * A relationship collection: the children of parent `pid` in descending `key`
   * order, as relationship(..., order_by="desc(...)") loads them.
   */
  function Children<R>(rows: seq<Stored<R>>, parent: R -> nat, pid: nat, key: R -> int): (r: seq<Stored<R>>)
    ensures SortedDesc(r, key)
    ensures forall k | 0 <= k < |r| :: r[k] in rows && parent(r[k].val) == pid
    ensures forall k | 0 <= k < |rows| && parent(rows[k].val) == pid :: rows[k] in r
  {
    var sel := Select(rows, v => parent(v) == pid);
    var r := SortDesc(sel, key);
    SameElements(r, sel);
    r
  }

  /** Two sequences with the same multiset hold the same elements. */
  lemma SameElements<T>(a: seq<T>, b: seq<T>)
    requires multiset(a) == multiset(b)
    ensures forall k | 0 <= k < |a| :: a[k] in b
    ensures forall k | 0 <= k < |b| :: b[k] in a
  {
    forall k | 0 <= k < |a| ensures a[k] in b {
      assert a[k] in multiset(a);
    }
    forall k | 0 <= k < |b| ensures b[k] in a {
      assert b[k] in multiset(b);
    }
  }

  /** The first child is one with the greatest key: history[0] is the latest version. */
  lemma {:induction false} FirstChildIsLatest<R>(rows: seq<Stored<R>>, parent: R -> nat, pid: nat, key: R -> int, k: nat)
    requires k < |rows| && parent(rows[k].val) == pid
    ensures var c := Children(rows, parent, pid, key); c != [] && key(rows[k].val) <= key(c[0].val)
  {
    var c := Children(rows, parent, pid, key);
    assert rows[k] in c;
    var j :| 0 <= j < |c| && c[j] == rows[k];
    if j > 0 {
      assert key(c[0].val) >= key(c[j].val);
    }
  }

  function HistoryEnd(h: ArticleHistory): int { h.endAt }
  function HistoryArticle(h: ArticleHistory): nat { h.articleId }
  function PushTime(p: Push): int { StampKey(p.datetime) }
  function PushHistory(p: Push): nat { p.historyId }
  function RecordCreated(u: UserLastRecord): int { u.createdAt }
  function RecordUser(u: UserLastRecord): nat { u.userId }
  /** The primary key of ArticleIndex. */
  function IndexWebId(a: ArticleIndex): string { a.webId }

  /** Article.history: the versions of an article, latest end_at first. */
  function History(histories: seq<Stored<ArticleHistory>>, articleId: nat): seq<Stored<ArticleHistory>> {
    Children(histories, HistoryArticle, articleId, HistoryEnd)
  }

  /** ArticleHistory.push_list: a version's comments, latest push_datetime first. */
  function PushList(pushes: seq<Stored<Push>>, historyId: nat): seq<Stored<Push>> {
    Children(pushes, PushHistory, historyId, PushTime)
  }

  /** User.last_record: a user's login records, latest created_at first. */
  function LastRecords(records: seq<Stored<UserLastRecord>>, userId: nat): seq<Stored<UserLastRecord>> {
    Children(records, RecordUser, userId, RecordCreated)
  }

  // ---------------------------------------------------------------- MyDateTime

  /** The column type: a DateTime with a time-zone flag. */
  datatype MyDateTime = MyDateTime(timezone: bool)

  /** result_processor: a value read from the database is handed back unchanged, None included. */
  function ResultProcessor(value: Option<Instant>): (r: Option<Instant>)
    ensures r.None? <==> value.None?
    ensures r.Some? ==> r.value == value.value
  {
    if value.Some? then Some(value.value) else None
  }

  /** adapt: the adapted type keeps the time-zone flag. */
  function Adapt(t: MyDateTime): (r: MyDateTime)
    ensures r.timezone == t.timezone
  {
    MyDateTime(t.timezone)
  }
}
