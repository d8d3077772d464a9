/**
 * export.py, _get_export_rows and _get_export_json: the report read out of the
 * database. One sheet of articles (each with its latest version), one of that
 * version's comments, one of users with their latest login; each address is
 * joined with what ip_asn knows about it. Every relationship the report walks
 * (article.board, article.user, history[0], push.user) and the user's address
 * lookup can fail, and one failure leaves the whole report empty.
 */
module ExportRows {
  import opened Wrappers
  import opened Text
  import opened Gateway
  import opened Records

  // ---------------------------------------------------------------- cells

  /**
   * What a cell holds: text, or a number. Only the user counters stay numbers, and
   * only when they are set and not zero (`login_times or ''`).
   */
  datatype Cell = Text(text: string) | Count(count: int)

  type Row = seq<Cell>

  /** A JSON row: the keys with their values, in the order the dict is filled. */
  type JsonRow = seq<(string, Cell)>

  /** The tables the report reads. */
  datatype Snapshot = Snapshot(
    boards: seq<Stored<Board>>, users: seq<Stored<User>>, articles: seq<Stored<Article>>,
    histories: seq<Stored<ArticleHistory>>, pushes: seq<Stored<Push>>,
    lastRecords: seq<Stored<UserLastRecord>>, ipAsns: seq<Stored<IpAsn>>)

  /** The three sheets, each headed by its column names. */
  datatype Sheets = Sheets(articles: seq<Row>, pushes: seq<Row>, users: seq<Row>)

  /** The JSON report: the same three lists, without headers. */
  datatype JsonSheets = JsonSheets(articles: seq<JsonRow>, pushes: seq<JsonRow>, users: seq<JsonRow>)

  const ArticleLead: seq<string> := ["Atricle.web_id", "Article.board", "Atricle.author", "Atricle.title", "Atricle.cotent"]
  const ArticleAddress: seq<string> := [
    "Atricle.post_ip", "Atricle.post_ip.asn", "Atricle.post_ip.asn_date", "Atricle.post_ip.asn_registry",
    "Atricle.post_ip.asn_cidr", "Atricle.post_ip.asn_country_code", "Atricle.post_ip.asn_description"]
  const ArticleTimes: seq<string> := ["Article.post_datetime", "Article.last_modified_time"]
  /** The article sheet's column names. */
  const ArticleHeader: seq<string> := ArticleLead + ArticleAddress + ArticleTimes

  const PushLead: seq<string> := ["Push.article_web_id", "Push.username", "Push.tag", "Push.content"]
  const PushAddress: seq<string> := [
    "Push.ip", "Push.ip.asn", "Push.ip.asn_cidr", "Push.ip.asn_country_code",
    "Push.ip.asn_date", "Push.ip.asn_description", "Push.ip.asn_registry"]
  /** The comment sheet's column names. */
  const PushHeader: seq<string> := PushLead + PushAddress + ["Push.datatime"]

  const UserLead: seq<string> := [
    "User.username", "User.login_times", "User.valid_article_count",
    "User.last_login_datetime", "User.last_login_ip"]
  const UserAddress: seq<string> := [
    "User.last_login_ip.asn", "User.last_login_ip.asn_date", "User.last_login_ip.asn_registry",
    "User.last_login_ip.asn_cidr", "User.last_login_ip.asn_country_code", "User.last_login_ip.asn_description"]
  /** The user sheet's column names. */
  const UserHeader: seq<string> := UserLead + UserAddress

  /** The sheets are fourteen, twelve and eleven columns wide. */
  lemma HeaderWidths()
    ensures |ArticleHeader| == 14 && |PushHeader| == 12 && |UserHeader| == 11
  {
  }

  function HeaderRow(names: seq<string>): (r: Row)
    ensures |r| == |names| && forall k | 0 <= k < |r| :: r[k] == Text(names[k])
  {
    seq(|names|, k requires 0 <= k < |names| => Text(names[k]))
  }

  /** `value or ''` for a text column. */
  function Or(s: Option<string>): string {
    if s.Some? then s.value else ""
  }

  /** `str(value or '')` for a datetime column: its rendering by str() (`show`), or '' when unset. */
  function TimeText(show: Instant -> string, t: Option<Instant>): string {
    if t.Some? then show(t.value) else ""
  }

  /** `value or ''` for a counter: a zero counter is falsy too. */
  function CountCell(n: Option<int>): (c: Cell)
    ensures c == Text("") <==> n.None? || n.value == 0
    ensures c != Text("") ==> c == Count(n.value)
  {
    if n.None? || n.value == 0 then Text("") else Count(n.value)
  }

  /** A comment time as a datetime holds it: a real month, day, minute and second. */
  predicate StampValid(p: PushStamp) {
    1 <= p.month <= 12 && 1 <= p.day <= 31 && 0 <= p.minute <= 59 && 0 <= p.second <= 59
  }

  /**
   * push_datetime.strftime('%m/%d %H:%M:%S'), or '' when there is none. The stored
   * stamp's hour is always 0.
   */
  function PushTimeText(t: Option<PushStamp>): (r: string)
    requires t.Some? ==> StampValid(t.value)
    ensures t.None? ==> r == ""
    ensures t.Some? ==>
      && |r| == 14 && r[2] == '/' && r[5] == ' ' && r[6..9] == "00:" && r[11] == ':'
      && r[0..2] == Pad2(t.value.month) && r[3..5] == Pad2(t.value.day)
      && r[9..11] == Pad2(t.value.minute) && r[12..14] == Pad2(t.value.second)
  {
    if t.None? then ""
    else
      var p := t.value;
      Pad2(p.month) + "/" + Pad2(p.day) + " " + "00" + ":" + Pad2(p.minute) + ":" + Pad2(p.second)
  }

  // ---------------------------------------------------------------- lookups

  /** The row with primary key `id`, as a many-to-one relationship loads it; None for a dangling key. */
  function ById<R>(rows: seq<Stored<R>>, id: nat): (r: Option<R>)
    ensures r.Some? ==> Stored(id, r.value) in rows
    ensures r.None? ==> forall k | 0 <= k < |rows| :: rows[k].id != id
  {
    if rows == [] then None
    else if rows[0].id == id then Some(rows[0].val)
    else ById(rows[1..], id)
  }

  /**
   * query(IpAsn).filter_by(ip=address).first(): the row of the address; an unset
   * address matches no row, ip being the primary key.
   */
  function AddressRow(ipAsns: seq<Stored<IpAsn>>, ip: Option<string>): (r: Option<IpAsn>)
    ensures ip.None? ==> r.None?
    ensures r.Some? ==> ip.Some? && r.value.ip == ip.value && exists k | 0 <= k < |ipAsns| :: ipAsns[k].val == r.value
    ensures ip.Some? && r.None? ==> forall k | 0 <= k < |ipAsns| :: ipAsns[k].val.ip != ip.value
  {
    if ip.None? then None
    else match FirstMatch(ipAsns, (a: IpAsn) => a.ip == ip.value)
      case None => None
      case Some(k) => Some(ipAsns[k].val)
  }

  // ---------------------------------------------------------------- one article

  /** The article's address cells: the ip_asn row's address and six columns, or its own address and six blanks. */
  function ArticleAsnCells(found: Option<IpAsn>, postIp: Option<string>, show: Instant -> string): (r: seq<Cell>)
    ensures |r| == 7
    ensures found.None? ==> r[0] == Text(Or(postIp)) && forall k | 1 <= k < 7 :: r[k] == Text("")
  {
    if found.Some? then
      var x := found.value;
      [Text(x.ip), Text(Or(x.asn)), Text(TimeText(show, x.asnDate)), Text(Or(x.registry)),
       Text(Or(x.cidr)), Text(Or(x.countryCode)), Text(Or(x.description))]
    else [Text(Or(postIp)), Text(""), Text(""), Text(""), Text(""), Text(""), Text("")]
  }

  /**
   * The sheet row of an article and its latest version `h`: web id, board name, author,
   * title, content, the address cells, post time and the version's end time. None when
   * the board or the author is missing.
   */
  function ArticleRow(db: Snapshot, a: Article, h: ArticleHistory, show: Instant -> string): (r: Option<Row>)
    ensures r.Some? <==> ById(db.boards, a.boardId).Some? && ById(db.users, a.userId).Some?
    ensures r.Some? ==> |r.value| == |ArticleHeader| && r.value[0] == Text(a.webId)
    ensures r.Some? && AddressRow(db.ipAsns, a.postIp).None? ==>
      r.value[5] == Text(Or(a.postIp)) && forall k | 6 <= k < 12 :: r.value[k] == Text("")
  {
    match (ById(db.boards, a.boardId), ById(db.users, a.userId))
    case (Some(b), Some(u)) =>
      Some([Text(a.webId), Text(b.name), Text(u.username), Text(h.title), Text(h.content)]
           + ArticleAsnCells(AddressRow(db.ipAsns, a.postIp), a.postIp, show)
           + [Text(show(a.postDatetime)), Text(show(h.endAt))])
    case _ => None
  }

  /** The article's address keys and values, as the JSON dict is filled. */
  function ArticleAsnJson(found: Option<IpAsn>, postIp: Option<string>, show: Instant -> string): JsonRow {
    if found.Some? then
      var x := found.value;
      [("Atricle.post_ip", Text(x.ip)), ("Atricle.post_ip.asn", Text(Or(x.asn))),
       ("Atricle.post_ip.asn_date", Text(TimeText(show, x.asnDate))),
       ("Atricle.post_ip.asn_registry", Text(Or(x.registry))), ("Atricle.post_ip.asn_cidr", Text(Or(x.cidr))),
       ("Atricle.post_ip.asn_country_code", Text(Or(x.countryCode))),
       ("Atricle.post_ip.asn_description", Text(Or(x.description)))]
    else
      [("Atricle.post_ip", Text(Or(postIp))), ("Atricle.post_ip.asn", Text("")),
       ("Atricle.post_ip.asn_date", Text("")), ("Atricle.post_ip.asn_registry", Text("")),
       ("Atricle.post_ip.asn_cidr", Text("")), ("Atricle.post_ip.asn_country_code", Text("")),
       ("Atricle.post_ip.asn_description", Text(""))]
  }

  /** The same article as a JSON dict. */
  function ArticleJson(db: Snapshot, a: Article, h: ArticleHistory, show: Instant -> string): Option<JsonRow> {
    match (ById(db.boards, a.boardId), ById(db.users, a.userId))
    case (Some(b), Some(u)) =>
      Some([("Atricle.web_id", Text(a.webId)), ("Article.board", Text(b.name)), ("Atricle.author", Text(u.username)),
            ("Atricle.title", Text(h.title)), ("Atricle.cotent", Text(h.content))]
           + ArticleAsnJson(AddressRow(db.ipAsns, a.postIp), a.postIp, show)
           + [("Article.post_datetime", Text(show(a.postDatetime))), ("Article.last_modified_time", Text(show(h.endAt)))])
    case _ => None
  }

  // ---------------------------------------------------------------- one comment

  /** The comment's address cells, in the order address, asn, cidr, country code, date, description, registry. */
  function PushAsnCells(found: Option<IpAsn>, pushIp: Option<string>, show: Instant -> string): (r: seq<Cell>)
    ensures |r| == 7
    ensures found.None? ==> r[0] == Text(Or(pushIp)) && forall k | 1 <= k < 7 :: r[k] == Text("")
  {
    if found.Some? then
      var x := found.value;
      [Text(x.ip), Text(Or(x.asn)), Text(Or(x.cidr)), Text(Or(x.countryCode)),
       Text(TimeText(show, x.asnDate)), Text(Or(x.description)), Text(Or(x.registry))]
    else [Text(Or(pushIp)), Text(""), Text(""), Text(""), Text(""), Text(""), Text("")]
  }

  /**
   * The sheet row of a comment of the article `webId`: commenter, tag, content, the
   * address cells and the comment time. None when the commenter is missing.
   */
  function PushRow(db: Snapshot, webId: string, p: Push, show: Instant -> string): (r: Option<Row>)
    requires StampValid(p.datetime)
    ensures r.Some? <==> ById(db.users, p.userId).Some?
    ensures r.Some? ==> |r.value| == |PushHeader| && r.value[0] == Text(webId)
    ensures r.Some? ==> r.value[11] == Text(PushTimeText(Some(p.datetime)))
    ensures r.Some? && AddressRow(db.ipAsns, p.ip).None? ==>
      r.value[4] == Text(Or(p.ip)) && forall k | 5 <= k < 11 :: r.value[k] == Text("")
  {
    match ById(db.users, p.userId)
    case Some(u) =>
      Some([Text(webId), Text(u.username), Text(p.tag), Text(p.content)]
           + PushAsnCells(AddressRow(db.ipAsns, p.ip), p.ip, show)
           + [Text(PushTimeText(Some(p.datetime)))])
    case None => None
  }

  /** The comment's address keys and values, as the JSON dict is filled. */
  function PushAsnJson(found: Option<IpAsn>, pushIp: Option<string>, show: Instant -> string): JsonRow {
    if found.Some? then
      var x := found.value;
      [("Push.ip", Text(x.ip)), ("Push.ip.asn", Text(Or(x.asn))), ("Push.ip.asn_cidr", Text(Or(x.cidr))),
       ("Push.ip.asn_country_code", Text(Or(x.countryCode))), ("Push.ip.asn_date", Text(TimeText(show, x.asnDate))),
       ("Push.ip.asn_description", Text(Or(x.description))), ("Push.ip.asn_registry", Text(Or(x.registry)))]
    else
      [("Push.ip", Text(Or(pushIp))), ("Push.ip.asn", Text("")), ("Push.ip.asn_cidr", Text("")),
       ("Push.ip.asn_country_code", Text("")), ("Push.ip.asn_date", Text("")),
       ("Push.ip.asn_description", Text("")), ("Push.ip.asn_registry", Text(""))]
  }

  /** The same comment as a JSON dict. */
  function PushJson(db: Snapshot, webId: string, p: Push, show: Instant -> string): Option<JsonRow>
    requires StampValid(p.datetime)
  {
    match ById(db.users, p.userId)
    case Some(u) =>
      Some([("Push.article_web_id", Text(webId)), ("Push.username", Text(u.username)),
            ("Push.tag", Text(p.tag)), ("Push.content", Text(p.content))]
           + PushAsnJson(AddressRow(db.ipAsns, p.ip), p.ip, show)
           + [("Push.datatime", Text(PushTimeText(Some(p.datetime))))])
    case None => None
  }

  // ---------------------------------------------------------------- one user

  /** A row of `n` empty strings. */
  function Blank(n: nat): (r: Row)
    ensures |r| == n && forall k | 0 <= k < n :: r[k] == Text("")
  {
    seq(n, k => Text(""))
  }

  /** User.last_record[0]: the user's newest login record, if any. */
  function LatestRecord(records: seq<Stored<UserLastRecord>>, userId: nat): (r: Option<UserLastRecord>)
    ensures r.None? <==> forall k | 0 <= k < |records| :: records[k].val.userId != userId
    ensures r.Some? ==> r.value.userId == userId
    ensures r.Some? ==>
      forall k | 0 <= k < |records| && records[k].val.userId == userId :: records[k].val.createdAt <= r.value.createdAt
  {
    var recs := LastRecords(records, userId);
    if recs == [] then
      assert forall k | 0 <= k < |records| :: records[k].val.userId != userId by {
        forall k | 0 <= k < |records| ensures records[k].val.userId != userId {
          if RecordUser(records[k].val) == userId {
            assert false;
          }
        }
      }
      None
    else
      assert RecordUser(recs[0].val) == userId;
      forall k | 0 <= k < |records| && records[k].val.userId == userId
        ensures records[k].val.createdAt <= recs[0].val.createdAt
      {
        FirstChildIsLatest(records, RecordUser, userId, RecordCreated, k);
      }
      Some(recs[0].val)
  }

  /** The six columns of the ip_asn row of a user's last address. */
  function UserAsnCells(x: IpAsn, show: Instant -> string): (r: Row)
    ensures |r| == 6
  {
    [Text(Or(x.asn)), Text(TimeText(show, x.asnDate)), Text(Or(x.registry)), Text(Or(x.cidr)),
     Text(Or(x.countryCode)), Text(Or(x.description))]
  }

  /**
   * The sheet row of a user `u` whose newest login record is `rec`. With no record,
   * eleven empty strings (the username too). Otherwise the username, both counters,
   * the record's time and address, and six columns of that address's ip_asn row;
   * None when the address has no row.
   */
  function UserCells(ipAsns: seq<Stored<IpAsn>>, u: User, rec: Option<UserLastRecord>, show: Instant -> string): (r: Option<Row>)
    ensures r.Some? ==> |r.value| == |UserHeader|
    ensures rec.None? ==> r == Some(Blank(11))
    ensures rec.Some? ==> (r.None? <==> AddressRow(ipAsns, Some(rec.value.lastLoginIp)).None?)
    ensures rec.Some? && r.Some? ==>
      r.value[0] == Text(u.username) && r.value[1] == CountCell(u.loginTimes)
      && r.value[2] == CountCell(u.validArticleCount) && r.value[4] == Text(rec.value.lastLoginIp)
  {
    if rec.None? then Some(Blank(11))
    else
      match AddressRow(ipAsns, Some(rec.value.lastLoginIp))
      case None => None
      case Some(x) =>
        Some([Text(u.username), CountCell(u.loginTimes), CountCell(u.validArticleCount),
              Text(show(rec.value.lastLoginDatetime)), Text(rec.value.lastLoginIp)]
             + UserAsnCells(x, show))
  }

  /** The sheet row of a stored user. */
  function UserRow(db: Snapshot, u: Stored<User>, show: Instant -> string): Option<Row> {
    UserCells(db.ipAsns, u.val, LatestRecord(db.lastRecords, u.id), show)
  }

  /** The six address keys and values of a user's JSON dict. */
  function UserAsnJson(x: IpAsn, show: Instant -> string): JsonRow {
    [("User.last_login_ip.asn", Text(Or(x.asn))),
     ("User.last_login_ip.asn_date", Text(TimeText(show, x.asnDate))),
     ("User.last_login_ip.asn_registry", Text(Or(x.registry))),
     ("User.last_login_ip.asn_cidr", Text(Or(x.cidr))),
     ("User.last_login_ip.asn_country_code", Text(Or(x.countryCode))),
     ("User.last_login_ip.asn_description", Text(Or(x.description)))]
  }

  /** The same user as a JSON dict: without a login record it keeps the username. */
  function UserJsonCells(ipAsns: seq<Stored<IpAsn>>, u: User, rec: Option<UserLastRecord>, show: Instant -> string): Option<JsonRow> {
    if rec.None? then
      Some([("User.username", Text(u.username)), ("User.login_times", Text("")),
            ("User.valid_article_count", Text("")), ("User.last_login_datetime", Text("")),
            ("User.last_login_ip", Text("")), ("User.last_login_ip.asn", Text("")),
            ("User.last_login_ip.asn_date", Text("")), ("User.last_login_ip.asn_registry", Text("")),
            ("User.last_login_ip.asn_cidr", Text("")), ("User.last_login_ip.asn_country_code", Text("")),
            ("User.last_login_ip.asn_description", Text(""))])
    else
      match AddressRow(ipAsns, Some(rec.value.lastLoginIp))
      case None => None
      case Some(x) =>
        Some([("User.username", Text(u.username)), ("User.login_times", CountCell(u.loginTimes)),
              ("User.valid_article_count", CountCell(u.validArticleCount)),
              ("User.last_login_datetime", Text(show(rec.value.lastLoginDatetime))),
              ("User.last_login_ip", Text(rec.value.lastLoginIp))]
             + UserAsnJson(x, show))
  }

  function UserJson(db: Snapshot, u: Stored<User>, show: Instant -> string): Option<JsonRow> {
    UserJsonCells(db.ipAsns, u.val, LatestRecord(db.lastRecords, u.id), show)
  }

  // ---------------------------------------------------------------- the two variants agree

  /** The header's names paired with a row's cells. */
  function Zip(names: seq<string>, row: Row): (r: JsonRow)
    requires |names| == |row|
    ensures |r| == |names| && forall k | 0 <= k < |r| :: r[k] == (names[k], row[k])
  {
    seq(|names|, k requires 0 <= k < |names| => (names[k], row[k]))
  }

  /** Every row is `n` cells wide. */
  predicate Wide(rows: seq<Row>, n: nat) {
    forall k | 0 <= k < |rows| :: |rows[k]| == n
  }

  /** Every row of a sheet paired with the header's names. */
  function ZipAll(names: seq<string>, rows: seq<Row>): (r: seq<JsonRow>)
    requires Wide(rows, |names|)
    ensures |r| == |rows| && forall k | 0 <= k < |rows| :: r[k] == Zip(names, rows[k])
  {
    seq(|rows|, k requires 0 <= k < |rows| => Zip(names, rows[k]))
  }

  /** Pairing names with cells distributes over joining both. */
  lemma ZipAppend(n1: seq<string>, n2: seq<string>, r1: Row, r2: Row)
    requires |n1| == |r1| && |n2| == |r2|
    ensures Zip(n1 + n2, r1 + r2) == Zip(n1, r1) + Zip(n2, r2)
  {
    assert |Zip(n1 + n2, r1 + r2)| == |Zip(n1, r1) + Zip(n2, r2)|;
    forall k | 0 <= k < |n1| + |n2| ensures Zip(n1 + n2, r1 + r2)[k] == (Zip(n1, r1) + Zip(n2, r2))[k] {
      if k >= |n1| {
        assert Zip(n2, r2)[k - |n1|] == (n2[k - |n1|], r2[k - |n1|]);
      }
    }
  }

  lemma ArticleAsnJsonAgrees(found: Option<IpAsn>, postIp: Option<string>, show: Instant -> string)
    ensures ArticleAsnJson(found, postIp, show) == Zip(ArticleAddress, ArticleAsnCells(found, postIp, show))
  {
  }

  /** An article's JSON dict holds, under the header's names in the header's order, the cells of its sheet row. */
  lemma ArticleJsonAgrees(db: Snapshot, a: Article, h: ArticleHistory, show: Instant -> string)
    ensures ArticleJson(db, a, h, show).Some? <==> ArticleRow(db, a, h, show).Some?
    ensures ArticleRow(db, a, h, show).Some? ==>
      ArticleJson(db, a, h, show).value == Zip(ArticleHeader, ArticleRow(db, a, h, show).value)
  {
    var b, u := ById(db.boards, a.boardId), ById(db.users, a.userId);
    if b.Some? && u.Some? {
      var found := AddressRow(db.ipAsns, a.postIp);
      var lead: Row := [Text(a.webId), Text(b.value.name), Text(u.value.username), Text(h.title), Text(h.content)];
      var asn := ArticleAsnCells(found, a.postIp, show);
      var times: Row := [Text(show(a.postDatetime)), Text(show(h.endAt))];
      assert ArticleRow(db, a, h, show).value == lead + asn + times;
      ArticleAsnJsonAgrees(found, a.postIp, show);
      ZipAppend(ArticleLead, ArticleAddress, lead, asn);
      ZipAppend(ArticleLead + ArticleAddress, ArticleTimes, lead + asn, times);
    }
  }

  lemma PushAsnJsonAgrees(found: Option<IpAsn>, pushIp: Option<string>, show: Instant -> string)
    ensures PushAsnJson(found, pushIp, show) == Zip(PushAddress, PushAsnCells(found, pushIp, show))
  {
  }

  /** A comment's JSON dict holds the cells of its sheet row under the header's names. */
  lemma PushJsonAgrees(db: Snapshot, webId: string, p: Push, show: Instant -> string)
    requires StampValid(p.datetime)
    ensures PushJson(db, webId, p, show).Some? <==> PushRow(db, webId, p, show).Some?
    ensures PushRow(db, webId, p, show).Some? ==>
      PushJson(db, webId, p, show).value == Zip(PushHeader, PushRow(db, webId, p, show).value)
  {
    var u := ById(db.users, p.userId);
    if u.Some? {
      var found := AddressRow(db.ipAsns, p.ip);
      var lead: Row := [Text(webId), Text(u.value.username), Text(p.tag), Text(p.content)];
      var asn := PushAsnCells(found, p.ip, show);
      var time: Row := [Text(PushTimeText(Some(p.datetime)))];
      assert PushRow(db, webId, p, show).value == lead + asn + time;
      PushAsnJsonAgrees(found, p.ip, show);
      ZipAppend(PushLead, PushAddress, lead, asn);
      ZipAppend(PushLead + PushAddress, ["Push.datatime"], lead + asn, time);
    }
  }

  /** A user with a login record: the JSON dict holds the cells of the sheet row under the header's names. */
  lemma UserJsonAgrees(ipAsns: seq<Stored<IpAsn>>, u: User, rec: UserLastRecord, show: Instant -> string)
    ensures UserJsonCells(ipAsns, u, Some(rec), show).Some? <==> UserCells(ipAsns, u, Some(rec), show).Some?
    ensures UserCells(ipAsns, u, Some(rec), show).Some? ==>
      UserJsonCells(ipAsns, u, Some(rec), show).value == Zip(UserHeader, UserCells(ipAsns, u, Some(rec), show).value)
  {
    var found := AddressRow(ipAsns, Some(rec.lastLoginIp));
    if found.Some? {
      var x := found.value;
      var lead: Row := [Text(u.username), CountCell(u.loginTimes), CountCell(u.validArticleCount),
                        Text(show(rec.lastLoginDatetime)), Text(rec.lastLoginIp)];
      assert UserAsnJson(x, show) == Zip(UserAddress, UserAsnCells(x, show));
      ZipAppend(UserLead, UserAddress, lead, UserAsnCells(x, show));
    }
  }

  /**
   * A user without a login record: the JSON dict keeps the username where the
   * sheet row has eleven empty strings, and is blank elsewhere.
   */
  lemma UnrecordedUserJson(ipAsns: seq<Stored<IpAsn>>, u: User, show: Instant -> string)
    ensures UserJsonCells(ipAsns, u, None, show) == Some(Zip(UserHeader, Blank(11)[0 := Text(u.username)]))
  {
    var row := Blank(11)[0 := Text(u.username)];
    var j := UserJsonCells(ipAsns, u, None, show).value;
    var z := Zip(UserHeader, row);
    assert |j| == |z| == 11;
    forall k | 0 <= k < 11 ensures j[k] == z[k] {
    }
    assert j == z;
  }
}
