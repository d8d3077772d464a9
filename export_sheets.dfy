/**
 * export.py, the whole report: articles in post_datetime order, each followed by
 * the comments of its latest version, then every user. Any failing lookup makes the
 * whole report fail (the `@log('Get Data')` wrapper turns the exception into None).
 */
module ExportSheets {
  import opened Wrappers
  import opened Gateway
  import opened Records
  import opened Batches
  import opened ExportRows

  /**
   * The result of `f` on every element, in order, or None as soon as one fails: a
   * loop that appends one row per element and stops at the first exception.
   */
  function Collect<T, U>(xs: seq<T>, f: T --> Option<U>): (r: Option<seq<U>>)
    requires forall k | 0 <= k < |xs| :: f.requires(xs[k])
    ensures r.Some? <==> forall k | 0 <= k < |xs| :: f(xs[k]).Some?
    ensures r.Some? ==> |r.value| == |xs| && forall k | 0 <= k < |xs| :: r.value[k] == f(xs[k]).value
    decreases |xs|
  {
    if xs == [] then Some([])
    else
      var init := Collect(xs[..|xs| - 1], f);
      var last := f(xs[|xs| - 1]);
      if init.Some? && last.Some? then Some(init.value + [last.value]) else None
  }

  /** Every stored comment time is one a datetime can hold. */
  predicate StampsValid(pushes: seq<Stored<Push>>) {
    forall k | 0 <= k < |pushes| :: StampValid(pushes[k].val.datetime)
  }

  /** The comments of a version are stored comments, so their times are valid too. */
  lemma ListedStampsValid(pushes: seq<Stored<Push>>, historyId: nat)
    requires StampsValid(pushes)
    ensures forall k | 0 <= k < |PushList(pushes, historyId)| :: StampValid(PushList(pushes, historyId)[k].val.datetime)
  {
    var ps := PushList(pushes, historyId);
    forall k | 0 <= k < |ps| ensures StampValid(ps[k].val.datetime) {
      assert ps[k] in pushes;
    }
  }

  /** The comment rows of version `historyId` of article `webId`, in push_list order (latest first). */
  function PushRows(db: Snapshot, webId: string, historyId: nat, show: Instant -> string): Option<seq<Row>>
    requires StampsValid(db.pushes)
  {
    var ps := PushList(db.pushes, historyId);
    ListedStampsValid(db.pushes, historyId);
    Collect(ps, PushRowOf(db, webId, show))
  }

  /** The row of a comment of article `webId`, as a function of the stored comment. */
  function PushRowOf(db: Snapshot, webId: string, show: Instant -> string): Stored<Push> --> Option<Row> {
    (p: Stored<Push>) requires StampValid(p.val.datetime) => PushRow(db, webId, p.val, show)
  }

  /**
   * What one article contributes: its row (built from history[0], the version with
   * the latest end_at) and the rows of that version's comments. None when it has no
   * version or a lookup fails.
   */
  function ArticleBlock(db: Snapshot, a: Stored<Article>, show: Instant -> string): (r: Option<(Row, seq<Row>)>)
    requires StampsValid(db.pushes)
    ensures History(db.histories, a.id) == [] ==> r.None?
    ensures r.Some? ==>
      var h := History(db.histories, a.id)[0];
      && ArticleRow(db, a.val, h.val, show) == Some(r.value.0)
      && PushRows(db, a.val.webId, h.id, show) == Some(r.value.1)
  {
    var history := History(db.histories, a.id);
    if history == [] then None
    else
      match (ArticleRow(db, a.val, history[0].val, show), PushRows(db, a.val.webId, history[0].id, show))
      case (Some(row), Some(pushRows)) => Some((row, pushRows))
      case _ => None
  }

  function PostKey(a: Article): int { -a.postDatetime }

  /** query(Article).order_by(Article.post_datetime): the articles, earliest post first. */
  function ArticleOrder(articles: seq<Stored<Article>>): (r: seq<Stored<Article>>)
    ensures |r| == |articles| && multiset(r) == multiset(articles)
    ensures forall i, j | 0 <= i < j < |r| :: r[i].val.postDatetime <= r[j].val.postDatetime
  {
    var r := SortDesc(articles, PostKey);
    assert forall i, j | 0 <= i < j < |r| :: PostKey(r[i].val) >= PostKey(r[j].val);
    r
  }

  function Firsts<A, B>(ps: seq<(A, B)>): (r: seq<A>)
    ensures |r| == |ps| && forall k | 0 <= k < |ps| :: r[k] == ps[k].0
  {
    seq(|ps|, k requires 0 <= k < |ps| => ps[k].0)
  }

  function Seconds<A, B>(ps: seq<(A, B)>): (r: seq<B>)
    ensures |r| == |ps| && forall k | 0 <= k < |ps| :: r[k] == ps[k].1
  {
    seq(|ps|, k requires 0 <= k < |ps| => ps[k].1)
  }

  function ArticleBlocks(db: Snapshot, show: Instant -> string): Option<seq<(Row, seq<Row>)>>
    requires StampsValid(db.pushes)
  {
    Collect(ArticleOrder(db.articles), BlockOf(db, show))
  }

  function BlockOf(db: Snapshot, show: Instant -> string): Stored<Article> -> Option<(Row, seq<Row>)>
    requires StampsValid(db.pushes)
  {
    a => ArticleBlock(db, a, show)
  }

  function UserRows(db: Snapshot, show: Instant -> string): Option<seq<Row>> {
    Collect(db.users, UserRowOf(db, show))
  }

  function UserRowOf(db: Snapshot, show: Instant -> string): Stored<User> -> Option<Row> {
    u => UserRow(db, u, show)
  }

  /** _get_export_rows: the three sheets, each under its header; None when any lookup fails. */
  function Report(db: Snapshot, show: Instant -> string): (r: Option<Sheets>)
    requires StampsValid(db.pushes)
    ensures r.Some? ==> |r.value.articles| == |db.articles| + 1 && |r.value.users| == |db.users| + 1
    ensures r.Some? ==> && r.value.articles[0] == HeaderRow(ArticleHeader) && r.value.pushes != []
                        && r.value.pushes[0] == HeaderRow(PushHeader) && r.value.users[0] == HeaderRow(UserHeader)
  {
    Assemble(ArticleBlocks(db, show), UserRows(db, show))
  }

  /** The sheets under their headers: articles, then the comments of every article in turn, then users. */
  function Assemble(blocks: Option<seq<(Row, seq<Row>)>>, users: Option<seq<Row>>): Option<Sheets> {
    match (blocks, users)
    case (Some(blocks), Some(users)) =>
      Some(Sheets([HeaderRow(ArticleHeader)] + Firsts(blocks),
                  [HeaderRow(PushHeader)] + Concat(Seconds(blocks)),
                  [HeaderRow(UserHeader)] + users))
    case _ => None
  }

  // ---------------------------------------------------------------- the JSON variant

  function PushJsons(db: Snapshot, webId: string, historyId: nat, show: Instant -> string): Option<seq<JsonRow>>
    requires StampsValid(db.pushes)
  {
    var ps := PushList(db.pushes, historyId);
    ListedStampsValid(db.pushes, historyId);
    Collect(ps, PushJsonOf(db, webId, show))
  }

  function PushJsonOf(db: Snapshot, webId: string, show: Instant -> string): Stored<Push> --> Option<JsonRow> {
    (p: Stored<Push>) requires StampValid(p.val.datetime) => PushJson(db, webId, p.val, show)
  }

  function ArticleJsonBlock(db: Snapshot, a: Stored<Article>, show: Instant -> string): Option<(JsonRow, seq<JsonRow>)>
    requires StampsValid(db.pushes)
  {
    var history := History(db.histories, a.id);
    if history == [] then None
    else
      match (ArticleJson(db, a.val, history[0].val, show), PushJsons(db, a.val.webId, history[0].id, show))
      case (Some(row), Some(pushRows)) => Some((row, pushRows))
      case _ => None
  }

  function ArticleJsonBlocks(db: Snapshot, show: Instant -> string): Option<seq<(JsonRow, seq<JsonRow>)>>
    requires StampsValid(db.pushes)
  {
    Collect(ArticleOrder(db.articles), JsonBlockOf(db, show))
  }

  function JsonBlockOf(db: Snapshot, show: Instant -> string): Stored<Article> -> Option<(JsonRow, seq<JsonRow>)>
    requires StampsValid(db.pushes)
  {
    a => ArticleJsonBlock(db, a, show)
  }

  function UserJsons(db: Snapshot, show: Instant -> string): Option<seq<JsonRow>> {
    Collect(db.users, UserJsonOf(db, show))
  }

  function UserJsonOf(db: Snapshot, show: Instant -> string): Stored<User> -> Option<JsonRow> {
    u => UserJson(db, u, show)
  }

  /** _get_export_json: the three lists of dicts; None when any lookup fails. */
  function JsonReport(db: Snapshot, show: Instant -> string): (r: Option<JsonSheets>)
    requires StampsValid(db.pushes)
    ensures r.Some? ==> |r.value.articles| == |db.articles| && |r.value.users| == |db.users|
  {
    AssembleJson(ArticleJsonBlocks(db, show), UserJsons(db, show))
  }

  function AssembleJson(blocks: Option<seq<(JsonRow, seq<JsonRow>)>>, users: Option<seq<JsonRow>>): Option<JsonSheets> {
    match (blocks, users)
    case (Some(blocks), Some(users)) => Some(JsonSheets(Firsts(blocks), Concat(Seconds(blocks)), users))
    case _ => None
  }

  // ---------------------------------------------------------------- what the report holds

  /** The rows of groups all `n` wide stay `n` wide once the groups are joined. */
  lemma {:induction false} ConcatWidth(bs: seq<seq<Row>>, n: nat)
    requires forall i | 0 <= i < |bs| :: Wide(bs[i], n)
    ensures Wide(Concat(bs), n)
  {
    if bs != [] {
      ConcatWidth(bs[1..], n);
      assert Wide(bs[0], n);
    }
  }

  /**
   * The article sheet: the header, then one row per article in post_datetime order,
   * built from the article and its latest version.
   */
  lemma ArticleSheet(db: Snapshot, show: Instant -> string)
    requires StampsValid(db.pushes) && Report(db, show).Some?
    ensures var rows := Report(db, show).value.articles; var arts := ArticleOrder(db.articles);
      && |rows| == |arts| + 1 && rows[0] == HeaderRow(ArticleHeader)
      && forall k | 0 <= k < |arts| ::
           History(db.histories, arts[k].id) != []
           && ArticleRow(db, arts[k].val, History(db.histories, arts[k].id)[0].val, show) == Some(rows[k + 1])
  {
    var blocks := ArticleBlocks(db, show).value;
    assert Report(db, show).value.articles[1..] == Firsts(blocks);
  }

  /** Every row of the article sheet is fourteen cells wide. */
  lemma ArticleSheetWidth(db: Snapshot, show: Instant -> string)
    requires StampsValid(db.pushes) && Report(db, show).Some?
    ensures Wide(Report(db, show).value.articles, 14)
  {
    ArticleSheet(db, show);
    var rows := Report(db, show).value.articles;
    var arts := ArticleOrder(db.articles);
    forall k | 0 <= k < |rows| ensures |rows[k]| == 14 {
      if k == 0 {
        HeaderWidths();
      } else {
        var h := History(db.histories, arts[k - 1].id)[0].val;
        assert ArticleRow(db, arts[k - 1].val, h, show) == Some(rows[k]);
      }
    }
  }

  /** The comment sheet: the header, then rows twelve cells wide. */
  lemma PushSheet(db: Snapshot, show: Instant -> string)
    requires StampsValid(db.pushes) && Report(db, show).Some?
    ensures Report(db, show).value.pushes[0] == HeaderRow(PushHeader)
    ensures Wide(Report(db, show).value.pushes, 12)
  {
    var arts := ArticleOrder(db.articles);
    var blocks := ArticleBlocks(db, show).value;
    var groups := Seconds(blocks);
    forall i | 0 <= i < |groups| ensures Wide(groups[i], 12) {
      forall j | 0 <= j < |groups[i]| ensures |groups[i][j]| == 12 {
        PushGroupWidth(db, arts[i], show, blocks[i].1, j);
      }
    }
    ConcatWidth(groups, 12);
    HeaderWidths();
    ConsWidth(HeaderRow(PushHeader), Concat(groups), 12);
  }

  lemma ConsWidth(h: Row, t: seq<Row>, n: nat)
    requires |h| == n && Wide(t, n)
    ensures Wide([h] + t, n)
  {
  }

  lemma PushGroupWidth(db: Snapshot, a: Stored<Article>, show: Instant -> string, group: seq<Row>, j: nat)
    requires StampsValid(db.pushes) && History(db.histories, a.id) != []
    requires PushRows(db, a.val.webId, History(db.histories, a.id)[0].id, show) == Some(group)
    requires j < |group|
    ensures |group[j]| == 12
  {
    var ps := PushList(db.pushes, History(db.histories, a.id)[0].id);
    assert ps[j] in db.pushes;
    assert PushRow(db, a.val.webId, ps[j].val, show) == Some(group[j]);
  }

  /** The user sheet: the header, then one row per user in table order. */
  lemma UserSheet(db: Snapshot, show: Instant -> string)
    requires StampsValid(db.pushes) && Report(db, show).Some?
    ensures var rows := Report(db, show).value.users;
      && |rows| == |db.users| + 1 && rows[0] == HeaderRow(UserHeader)
      && forall k | 0 <= k < |db.users| :: UserRow(db, db.users[k], show) == Some(rows[k + 1])
  {
    assert Report(db, show).value.users[1..] == UserRows(db, show).value;
  }

  /** Every row of the user sheet is eleven cells wide. */
  lemma UserSheetWidth(db: Snapshot, show: Instant -> string)
    requires StampsValid(db.pushes) && Report(db, show).Some?
    ensures Wide(Report(db, show).value.users, 11)
  {
    UserSheet(db, show);
    var rows := Report(db, show).value.users;
    forall k | 0 <= k < |rows| ensures |rows[k]| == 11 {
      if k == 0 {
        HeaderWidths();
      } else {
        assert UserRow(db, db.users[k - 1], show) == Some(rows[k]);
      }
    }
  }

  /** Whether collecting fails does not depend on the order the elements are visited in. */
  lemma CollectFailsAnyOrder<T, U>(xs: seq<T>, ys: seq<T>, f: T -> Option<U>)
    requires multiset(xs) == multiset(ys)
    ensures Collect(xs, f).None? <==> exists k | 0 <= k < |ys| :: f(ys[k]).None?
  {
    if exists k | 0 <= k < |ys| :: f(ys[k]).None? {
      var k :| 0 <= k < |ys| && f(ys[k]).None?;
      assert ys[k] in multiset(xs);
      var j :| 0 <= j < |xs| && xs[j] == ys[k];
    }
    if exists j | 0 <= j < |xs| :: f(xs[j]).None? {
      var j :| 0 <= j < |xs| && f(xs[j]).None?;
      assert xs[j] in multiset(ys);
      var k :| 0 <= k < |ys| && ys[k] == xs[j];
    }
  }

  /** The article sheet fails exactly when some article, taken in any order, fails. */
  lemma ArticlesFail(db: Snapshot, show: Instant -> string)
    requires StampsValid(db.pushes)
    ensures ArticleBlocks(db, show).None? <==> exists k | 0 <= k < |db.articles| :: ArticleBlock(db, db.articles[k], show).None?
  {
    var f := BlockOf(db, show);
    CollectFailsAnyOrder(ArticleOrder(db.articles), db.articles, f);
    assert forall k | 0 <= k < |db.articles| :: f(db.articles[k]) == ArticleBlock(db, db.articles[k], show);
  }

  /** The user sheet fails exactly when some user's row fails. */
  lemma UsersFail(db: Snapshot, show: Instant -> string)
    ensures UserRows(db, show).None? <==> exists k | 0 <= k < |db.users| :: UserRow(db, db.users[k], show).None?
  {
    var f := UserRowOf(db, show);
    assert forall k | 0 <= k < |db.users| :: f(db.users[k]) == UserRow(db, db.users[k], show);
  }

  /**
   * The report fails exactly when some article, taken in any order, has no version
   * or a failing lookup, or some user's last address has no ip_asn row.
   */
  lemma ReportFails(db: Snapshot, show: Instant -> string)
    requires StampsValid(db.pushes)
    ensures Report(db, show).None? <==>
      || (exists k | 0 <= k < |db.articles| :: ArticleBlock(db, db.articles[k], show).None?)
      || (exists k | 0 <= k < |db.users| :: UserRow(db, db.users[k], show).None?)
  {
    assert Report(db, show).None? <==> ArticleBlocks(db, show).None? || UserRows(db, show).None?;
    ArticlesFail(db, show);
    UsersFail(db, show);
  }

  /** A version's comment rows fail exactly when some commenter is missing. */
  lemma PushRowsFail(db: Snapshot, webId: string, historyId: nat, show: Instant -> string)
    requires StampsValid(db.pushes)
    ensures var ps := PushList(db.pushes, historyId);
      PushRows(db, webId, historyId, show).None? <==> exists k | 0 <= k < |ps| :: ById(db.users, ps[k].val.userId).None?
  {
    ListedPushRowsFail(db, webId, historyId, show);
  }

  lemma ListedPushRowsFail(db: Snapshot, webId: string, historyId: nat, show: Instant -> string)
    requires StampsValid(db.pushes)
    ensures forall k | 0 <= k < |PushList(db.pushes, historyId)| ::
      && StampValid(PushList(db.pushes, historyId)[k].val.datetime)
      && (PushRow(db, webId, PushList(db.pushes, historyId)[k].val, show).None? <==>
          ById(db.users, PushList(db.pushes, historyId)[k].val.userId).None?)
  {
    ListedStampsValid(db.pushes, historyId);
  }

  /**
   * An article with a version fails exactly when its board or author is missing or
   * a commenter on its latest version is.
   */
  lemma ArticleBlockFails(db: Snapshot, a: Stored<Article>, show: Instant -> string)
    requires StampsValid(db.pushes) && History(db.histories, a.id) != []
    ensures var ps := PushList(db.pushes, History(db.histories, a.id)[0].id);
      ArticleBlock(db, a, show).None? <==>
        || ById(db.boards, a.val.boardId).None? || ById(db.users, a.val.userId).None?
        || exists k | 0 <= k < |ps| :: ById(db.users, ps[k].val.userId).None?
  {
    PushRowsFail(db, a.val.webId, History(db.histories, a.id)[0].id, show);
  }

  // ---------------------------------------------------------------- the JSON report agrees with the sheets

  lemma ZipAllAppend(names: seq<string>, a: seq<Row>, b: seq<Row>)
    requires Wide(a, |names|) && Wide(b, |names|)
    ensures Wide(a + b, |names|)
    ensures ZipAll(names, a + b) == ZipAll(names, a) + ZipAll(names, b)
  {
    var l, r := ZipAll(names, a + b), ZipAll(names, a) + ZipAll(names, b);
    assert |l| == |r|;
    forall k | 0 <= k < |l| ensures l[k] == r[k] {
      if k >= |a| {
        assert (a + b)[k] == b[k - |a|];
      }
    }
  }

  /** Joining groups of dicts is pairing the joined groups of rows with the names. */
  lemma {:induction false} ConcatZipAll(names: seq<string>, jbs: seq<seq<JsonRow>>, bs: seq<seq<Row>>)
    requires forall i | 0 <= i < |bs| :: Wide(bs[i], |names|)
    requires |jbs| == |bs|
    requires forall i | 0 <= i < |bs| :: jbs[i] == ZipAll(names, bs[i])
    ensures Wide(Concat(bs), |names|)
    ensures Concat(jbs) == ZipAll(names, Concat(bs))
  {
    ConcatWidth(bs, |names|);
    if bs != [] {
      ConcatZipAll(names, jbs[1..], bs[1..]);
      ZipAllAppend(names, bs[0], Concat(bs[1..]));
    }
  }

  /** A version's comment dicts are its comment rows paired with the header's names. */
  lemma PushJsonsAgree(db: Snapshot, webId: string, historyId: nat, show: Instant -> string)
    requires StampsValid(db.pushes)
    ensures PushJsons(db, webId, historyId, show).Some? <==> PushRows(db, webId, historyId, show).Some?
    ensures PushRows(db, webId, historyId, show).Some? ==>
      && Wide(PushRows(db, webId, historyId, show).value, |PushHeader|)
      && PushJsons(db, webId, historyId, show).value == ZipAll(PushHeader, PushRows(db, webId, historyId, show).value)
  {
    var ps := PushList(db.pushes, historyId);
    ListedStampsValid(db.pushes, historyId);
    HeaderWidths();
    forall k | 0 <= k < |ps|
      ensures PushJson(db, webId, ps[k].val, show).Some? <==> PushRow(db, webId, ps[k].val, show).Some?
      ensures PushRow(db, webId, ps[k].val, show).Some? ==>
        PushJson(db, webId, ps[k].val, show).value == Zip(PushHeader, PushRow(db, webId, ps[k].val, show).value)
    {
      PushJsonAgrees(db, webId, ps[k].val, show);
    }
  }

  /** An article's JSON block is its sheet block paired with the headers' names. */
  predicate BlockPaired(b: (Row, seq<Row>), j: (JsonRow, seq<JsonRow>)) {
    && |b.0| == |ArticleHeader|
    && Wide(b.1, |PushHeader|)
    && j == (Zip(ArticleHeader, b.0), ZipAll(PushHeader, b.1))
  }

  /** An article's dict and comment dicts are its row and comment rows paired with the headers' names. */
  lemma ArticleJsonBlockAgrees(db: Snapshot, a: Stored<Article>, show: Instant -> string)
    requires StampsValid(db.pushes)
    ensures ArticleJsonBlock(db, a, show).Some? <==> ArticleBlock(db, a, show).Some?
    ensures ArticleBlock(db, a, show).Some? ==> BlockPaired(ArticleBlock(db, a, show).value, ArticleJsonBlock(db, a, show).value)
  {
    var history := History(db.histories, a.id);
    if history != [] {
      HeaderWidths();
      ArticleJsonAgrees(db, a.val, history[0].val, show);
      PushJsonsAgree(db, a.val.webId, history[0].id, show);
    }
  }

  /** Two collections whose elements fail together fail together, and keep any relation between their elements. */
  lemma CollectPaired<T, U, V>(xs: seq<T>, f: T -> Option<U>, g: T -> Option<V>, paired: (U, V) -> bool)
    requires forall k | 0 <= k < |xs| :: f(xs[k]).Some? <==> g(xs[k]).Some?
    requires forall k | 0 <= k < |xs| :: f(xs[k]).Some? ==> paired(f(xs[k]).value, g(xs[k]).value)
    ensures Collect(xs, f).Some? <==> Collect(xs, g).Some?
    ensures Collect(xs, f).Some? ==>
      forall k | 0 <= k < |xs| :: paired(Collect(xs, f).value[k], Collect(xs, g).value[k])
  {
  }

  lemma JsonBlocksAgree(db: Snapshot, show: Instant -> string)
    requires StampsValid(db.pushes)
    ensures ArticleJsonBlocks(db, show).Some? <==> ArticleBlocks(db, show).Some?
    ensures ArticleBlocks(db, show).Some? ==>
      |ArticleBlocks(db, show).value| == |ArticleJsonBlocks(db, show).value|
      && forall k | 0 <= k < |ArticleBlocks(db, show).value| ::
           BlockPaired(ArticleBlocks(db, show).value[k], ArticleJsonBlocks(db, show).value[k])
  {
    var arts := ArticleOrder(db.articles);
    var f, g := BlockOf(db, show), JsonBlockOf(db, show);
    forall k | 0 <= k < |arts|
      ensures f(arts[k]).Some? <==> g(arts[k]).Some?
      ensures f(arts[k]).Some? ==> BlockPaired(f(arts[k]).value, g(arts[k]).value)
    {
      ArticleJsonBlockAgrees(db, arts[k], show);
    }
    CollectPaired(arts, f, g, BlockPaired);
    assert ArticleBlocks(db, show) == Collect(arts, f);
    assert ArticleJsonBlocks(db, show) == Collect(arts, g);
  }

  /**
   * _get_export_json and _get_export_rows agree on the articles and their comments:
   * both fail together, and otherwise each dict is the matching sheet row paired with
   * the header's names.
   */
  lemma JsonArticlesAgree(db: Snapshot, show: Instant -> string)
    requires StampsValid(db.pushes)
    ensures ArticleJsonBlocks(db, show).Some? <==> ArticleBlocks(db, show).Some?
    ensures ArticleBlocks(db, show).Some? ==>
      var bs := ArticleBlocks(db, show).value; var js := ArticleJsonBlocks(db, show).value;
      && |bs| == |js|
      && (forall k | 0 <= k < |bs| :: |bs[k].0| == |ArticleHeader| && js[k].0 == Zip(ArticleHeader, bs[k].0))
      && Wide(Concat(Seconds(bs)), |PushHeader|)
      && Concat(Seconds(js)) == ZipAll(PushHeader, Concat(Seconds(bs)))
  {
    JsonBlocksAgree(db, show);
    if ArticleBlocks(db, show).Some? {
      var bs := ArticleBlocks(db, show).value;
      var js := ArticleJsonBlocks(db, show).value;
      HeaderWidths();
      ConcatZipAll(PushHeader, Seconds(js), Seconds(bs));
    }
  }

  lemma UserJsonPaired(db: Snapshot, u: Stored<User>, show: Instant -> string)
    ensures UserJson(db, u, show).Some? <==> UserRow(db, u, show).Some?
    ensures UserRow(db, u, show).Some? ==>
      var row := UserRow(db, u, show).value;
      && |row| == 11
      && UserJson(db, u, show).value ==
           Zip(UserHeader, if LatestRecord(db.lastRecords, u.id).None? then row[0 := Text(u.val.username)] else row)
  {
    HeaderWidths();
    var rec := LatestRecord(db.lastRecords, u.id);
    if rec.None? {
      UnrecordedUserJson(db.ipAsns, u.val, show);
    } else {
      UserJsonAgrees(db.ipAsns, u.val, rec.value, show);
    }
  }

  /**
   * A user's dict is the matching sheet row paired with the header's names, except that
   * a user without a login record has the username where the row has an empty string.
   */
  lemma JsonUsersAgree(db: Snapshot, show: Instant -> string)
    ensures UserJsons(db, show).Some? <==> UserRows(db, show).Some?
    ensures UserRows(db, show).Some? ==>
      forall k | 0 <= k < |db.users| ::
        var row := UserRows(db, show).value[k];
        && |row| == 11
        && UserJsons(db, show).value[k] ==
             Zip(UserHeader, if LatestRecord(db.lastRecords, db.users[k].id).None? then row[0 := Text(db.users[k].val.username)] else row)
  {
    var f, g := UserRowOf(db, show), UserJsonOf(db, show);
    forall k | 0 <= k < |db.users|
      ensures g(db.users[k]).Some? <==> f(db.users[k]).Some?
      ensures f(db.users[k]).Some? ==>
        var row := f(db.users[k]).value;
        && |row| == 11
        && g(db.users[k]).value ==
             Zip(UserHeader, if LatestRecord(db.lastRecords, db.users[k].id).None? then row[0 := Text(db.users[k].val.username)] else row)
    {
      UserJsonPaired(db, db.users[k], show);
    }
    assert UserRows(db, show) == Collect(db.users, f);
    assert UserJsons(db, show) == Collect(db.users, g);
  }

  /** The user dicts fail exactly when the user rows do. */
  lemma UserJsonsFail(db: Snapshot, show: Instant -> string)
    ensures UserJsons(db, show).Some? <==> UserRows(db, show).Some?
  {
    JsonUsersAgree(db, show);
  }

  /** Sheets and JSON lists assembled from blocks and user rows that pair up. */
  lemma AssembledPaired(bs: Option<seq<(Row, seq<Row>)>>, us: Option<seq<Row>>,
                        js: Option<seq<(JsonRow, seq<JsonRow>)>>, jus: Option<seq<JsonRow>>)
    requires js.Some? <==> bs.Some?
    requires jus.Some? <==> us.Some?
    requires bs.Some? ==> |bs.value| == |js.value|
    requires bs.Some? ==>
      && (forall k | 0 <= k < |bs.value| :: |bs.value[k].0| == |ArticleHeader| && js.value[k].0 == Zip(ArticleHeader, bs.value[k].0))
      && Wide(Concat(Seconds(bs.value)), |PushHeader|)
      && Concat(Seconds(js.value)) == ZipAll(PushHeader, Concat(Seconds(bs.value)))
    ensures AssembleJson(js, jus).Some? <==> Assemble(bs, us).Some?
    ensures Assemble(bs, us).Some? ==>
      var sheets := Assemble(bs, us).value; var json := AssembleJson(js, jus).value;
      && Wide(sheets.articles[1..], |ArticleHeader|) && json.articles == ZipAll(ArticleHeader, sheets.articles[1..])
      && Wide(sheets.pushes[1..], |PushHeader|) && json.pushes == ZipAll(PushHeader, sheets.pushes[1..])
  {
    if Assemble(bs, us).Some? {
      var sheets := Assemble(bs, us).value;
      assert sheets.pushes[1..] == Concat(Seconds(bs.value));
      assert sheets.articles[1..] == Firsts(bs.value);
      HeaderWidths();
      assert AssembleJson(js, jus).value.articles == ZipAll(ArticleHeader, Firsts(bs.value));
    }
  }

  /**
   * _get_export_json fails exactly when _get_export_rows does, and otherwise holds
   * the sheets' rows, headers left out, each paired with its header's names.
   */
  lemma JsonReportAgrees(db: Snapshot, show: Instant -> string)
    requires StampsValid(db.pushes)
    ensures JsonReport(db, show).Some? <==> Report(db, show).Some?
    ensures Report(db, show).Some? ==>
      var sheets := Report(db, show).value; var json := JsonReport(db, show).value;
      && Wide(sheets.articles[1..], |ArticleHeader|) && json.articles == ZipAll(ArticleHeader, sheets.articles[1..])
      && Wide(sheets.pushes[1..], |PushHeader|) && json.pushes == ZipAll(PushHeader, sheets.pushes[1..])
  {
    JsonArticlesAgree(db, show);
    UserJsonsFail(db, show);
    var bs, us, js, jus := ArticleBlocks(db, show), UserRows(db, show), ArticleJsonBlocks(db, show), UserJsons(db, show);
    assert Report(db, show) == Assemble(bs, us);
    assert JsonReport(db, show) == AssembleJson(js, jus);
    AssembledPaired(bs, us, js, jus);
  }
}
