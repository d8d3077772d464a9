/**
 * ArticleCrawler._output_database and _output_index_to_database
 * (crawler/article.py): the parsed records are written through the shared
 * session, one transaction per record. A record that raises ends the whole
 * batch (the method is wrapped by the log decorator, which swallows the
 * exception); what it had already flushed stays pending in the session.
 */
module ArticleSync {
  import opened Wrappers
  import opened Text
  import opened Gateway
  import opened Records
  import opened Store
  import opened ArticleParse
  import opened ArticleFields

  function UserNamed(name: string): User -> bool { (u: User) => u.username == name }
  function BoardNamed(name: string): Board -> bool { (b: Board) => b.name == name }
  function ArticleWithId(webId: string): Article -> bool { (a: Article) => a.webId == webId }
  function AddressIs(ip: string): IpAsn -> bool { (a: IpAsn) => a.ip == ip }

  /** `now` extends `before`: no earlier row was changed, moved or removed. */
  predicate Grown<R(==)>(before: seq<Stored<R>>, now: seq<Stored<R>>) {
    |before| <= |now| && now[..|before|] == before
  }

  /** Users added after `before` were created by the crawler, with both counters 0. */
  predicate NewUsersZeroed(before: seq<Stored<User>>, now: seq<Stored<User>>)
    requires |before| <= |now|
  {
    forall k | |before| <= k < |now| :: now[k].val.loginTimes == Some(0) && now[k].val.validArticleCount == Some(0)
  }

  /** Address rows added after `before` are placeholders for non-empty addresses. */
  predicate NewPlaceholders(before: seq<Stored<IpAsn>>, now: seq<Stored<IpAsn>>)
    requires |before| <= |now|
  {
    forall k | |before| <= k < |now| :: now[k].val == Placeholder(now[k].val.ip) && now[k].val.ip != []
  }

  /** The user table only grew, and every user it gained has both counters 0. */
  predicate UsersGrew(before: seq<Stored<User>>, now: seq<Stored<User>>) {
    Grown(before, now) && NewUsersZeroed(before, now)
  }

  /** The address table only grew, and every row it gained is a placeholder for a non-empty address. */
  predicate AddressesGrew(before: seq<Stored<IpAsn>>, now: seq<Stored<IpAsn>>) {
    Grown(before, now) && NewPlaceholders(before, now)
  }

  /** Some user row has id `id` and user name `name`. */
  predicate HasUser(rows: seq<Stored<User>>, id: nat, name: string) {
    exists i | 0 <= i < |rows| :: rows[i].id == id && rows[i].val.username == name
  }

  lemma GrownTrans<R>(a: seq<Stored<R>>, b: seq<Stored<R>>, c: seq<Stored<R>>)
    requires Grown(a, b) && Grown(b, c)
    ensures Grown(a, c)
  {
    assert c[..|a|] == c[..|b|][..|a|];
  }

  lemma UsersGrewTrans(a: seq<Stored<User>>, b: seq<Stored<User>>, c: seq<Stored<User>>)
    requires UsersGrew(a, b) && UsersGrew(b, c)
    ensures UsersGrew(a, c)
  {
    GrownTrans(a, b, c);
    forall k | |a| <= k < |c| ensures c[k].val.loginTimes == Some(0) && c[k].val.validArticleCount == Some(0) {
      if k < |b| {
        assert c[k] == b[k];
      }
    }
  }

  lemma AddressesGrewTrans(a: seq<Stored<IpAsn>>, b: seq<Stored<IpAsn>>, c: seq<Stored<IpAsn>>)
    requires AddressesGrew(a, b) && AddressesGrew(b, c)
    ensures AddressesGrew(a, c)
  {
    GrownTrans(a, b, c);
    forall k | |a| <= k < |c| ensures c[k].val == Placeholder(c[k].val.ip) && c[k].val.ip != [] {
      if k < |b| {
        assert c[k] == b[k];
      }
    }
  }

  // ---------------------------------------------------------------- get_or_create with auto_commit=False

  /** get_or_create(User, {'username': name}, {..., 'login_times': 0, 'valid_article_count': 0}). */
  method EnsureUser(s: Session, name: string) returns (u: Stored<User>)
    requires s.Valid()
    modifies s.users
    ensures s.Valid()
    ensures u in s.users.rows && u.val.username == name
    ensures old(s.users.Get(UserNamed(name))).Some? ==>
      u == old(s.users.Get(UserNamed(name))).value && s.users.rows == old(s.users.rows)
    ensures old(s.users.Get(UserNamed(name))).None? ==>
      u.val == User(name, Some(0), Some(0)) && s.users.rows == old(s.users.rows) + [u]
    ensures UsersGrew(old(s.users.rows), s.users.rows)
    ensures s.users.committed == old(s.users.committed)
  {
    var ok, created;
    ok, u, created := s.users.GetOrCreate(UserNamed(name), User(name, Some(0), Some(0)), false);
  }

  /** get_or_create(Board, {'name': name}, {'name': name}). */
  method EnsureBoard(s: Session, name: string) returns (b: Stored<Board>)
    requires s.Valid()
    modifies s.boards
    ensures s.Valid()
    ensures b in s.boards.rows && b.val.name == name
    ensures Grown(old(s.boards.rows), s.boards.rows) && |s.boards.rows| <= |old(s.boards.rows)| + 1
    ensures s.boards.committed == old(s.boards.committed)
  {
    var ok, created;
    ok, b, created := s.boards.GetOrCreate(BoardNamed(name), Board(name), false);
  }

  /** get_or_create(IpAsn, {'ip': ip}, {'ip': ip}): a placeholder row for an address not yet known. */
  method EnsureAddress(s: Session, ip: string)
    requires s.Valid() && ip != []
    modifies s.ipAsns
    ensures s.Valid()
    ensures AddressesGrew(old(s.ipAsns.rows), s.ipAsns.rows)
    ensures exists i | 0 <= i < |s.ipAsns.rows| :: s.ipAsns.rows[i].val.ip == ip
    ensures old(s.ipAsns.Get(AddressIs(ip))).Some? ==> s.ipAsns.rows == old(s.ipAsns.rows)
    ensures s.ipAsns.committed == old(s.ipAsns.committed)
  {
    var ok, row, created := s.ipAsns.GetOrCreate(AddressIs(ip), Placeholder(ip), false);
    assert row in s.ipAsns.rows;
  }

  // ---------------------------------------------------------------- article versions

  /** `after` is `before` with the latest version of the article closed at t; nothing else differs. */
  ghost predicate Closed(before: seq<Stored<ArticleHistory>>, after: seq<Stored<ArticleHistory>>, articleId: nat, t: Instant) {
    History(before, articleId) != []
    && exists i | 0 <= i < |before| ::
      before[i] == History(before, articleId)[0]
      && after == before[i := Stored(before[i].id, before[i].val.(endAt := t))]
  }

  /**
   * article.history[0].end_at = datetime.now(), then a flush: the latest version of the
   * article is closed at a new clock reading. An article without versions raises.
   */
  method CloseLatest(s: Session, articleId: nat) returns (ok: bool, t: Instant)
    requires s.Valid()
    modifies s.time, s.histories
    ensures s.Valid() && s.histories.committed == old(s.histories.committed)
    ensures s.histories.nextId == old(s.histories.nextId)
    ensures ok <==> History(old(s.histories.rows), articleId) != []
    ensures ok ==> Closed(old(s.histories.rows), s.histories.rows, articleId, t) && old(s.time.now) <= t == s.time.now
    ensures !ok ==> s.histories.rows == old(s.histories.rows) && s.time.now == old(s.time.now)
  {
    var versions := History(s.histories.rows, articleId);
    if versions == [] {
      return false, s.time.now;
    }
    var i :| 0 <= i < |s.histories.rows| && s.histories.rows[i] == versions[0];
    t := s.CloseVersion(i);
    ok := true;
  }

  /**
   * `after` is `before` plus one version h of the given title and content, stamped no
   * earlier than `since`; when closedAt holds a time, the article's previous latest
   * version was also closed at that time, before h started.
   */
  ghost predicate VersionAdded(before: seq<Stored<ArticleHistory>>, after: seq<Stored<ArticleHistory>>,
                               h: Stored<ArticleHistory>, closedAt: Option<Instant>,
                               articleId: nat, title: string, content: string, since: Instant) {
    h.val.articleId == articleId && h.val.title == title && h.val.content == content
    && since <= h.val.startAt <= h.val.endAt
    && |after| == |before| + 1 && after[|before|] == h
    && (closedAt.None? ==> after == before + [h])
    && (closedAt.Some? ==> Closed(before, after[..|before|], articleId, closedAt.value)
                           && since <= closedAt.value <= h.val.startAt)
  }

  /**
   * The version a record adds: for an article already stored, its latest version is
   * closed first (and an article without one raises); then a version of the record's
   * title and content is created with two further clock readings as start_at and end_at.
   */
  method WriteVersion(s: Session, articleId: nat, isNew: bool, title: string, content: string)
    returns (ok: bool, closedAt: Option<Instant>, history: Stored<ArticleHistory>)
    requires s.Valid()
    modifies s.time, s.histories
    ensures s.Valid() && s.time.now >= old(s.time.now)
    ensures s.histories.committed == old(s.histories.committed)
    ensures ok <==> (isNew || History(old(s.histories.rows), articleId) != [])
    ensures !ok ==> s.histories.rows == old(s.histories.rows)
    ensures ok ==> (closedAt.Some? <==> !isNew)
    ensures ok ==> VersionAdded(old(s.histories.rows), s.histories.rows, history, closedAt, articleId, title, content, old(s.time.now))
    ensures ok ==> history.id == old(s.histories.nextId) && history.val.endAt == s.time.now
  {
    closedAt := None;
    history := Stored(0, ArticleHistory(articleId, title, content, 0, 0));
    ghost var before := s.histories.rows;
    if !isNew {
      var closed, t := CloseLatest(s, articleId);
      if !closed {
        return false, None, history;
      }
      closedAt := Some(t);
    }
    ghost var closedRows := s.histories.rows;
    history := s.AddVersion(articleId, title, content);
    assert s.histories.rows[..|before|] == closedRows;
    ok := true;
  }

  // ---------------------------------------------------------------- the comments of one record

  /** The comment row of message `m` at `floor`, given its user's id and its parsed address and time. */
  function PushRow(historyId: nat, floor: int, m: Message, userId: nat, ip: string, stamp: PushStamp): (p: Push)
    ensures p.historyId == historyId && p.floor == floor && p.tag == m.tag && p.content == m.content
    ensures p.userId == userId && p.ip == Some(ip) && p.datetime == stamp
  {
    Push(historyId, floor, m.tag, userId, m.content, Some(ip), stamp)
  }

  /** The address and time read from each message's field. */
  function FieldsOf(messages: seq<Message>): (fs: seq<Option<(string, PushStamp)>>)
    ensures |fs| == |messages|
    ensures forall k | 0 <= k < |fs| :: fs[k] == ParsePushIpDatetime(messages[k].ipdatetime)
  {
    if messages == [] then [] else FieldsOf(messages[..|messages| - 1]) + [ParsePushIpDatetime(messages[|messages| - 1].ipdatetime)]
  }

  /** Every field could be read. */
  predicate AllStamped(fs: seq<Option<(string, PushStamp)>>) {
    forall k | 0 <= k < |fs| :: fs[k].Some?
  }

  /**
   * ps[k] is the comment row of messages[k], numbered from floor 1, under the version
   * historyId, with the address and time fs[k] and a user row named after the commenter.
   */
  predicate PushesOf(ps: seq<Push>, historyId: nat, messages: seq<Message>, fs: seq<Option<(string, PushStamp)>>,
                     users: seq<Stored<User>>)
  {
    |ps| <= |messages| && |ps| <= |fs|
    && forall k | 0 <= k < |ps| ::
      fs[k].Some? && HasUser(users, ps[k].userId, messages[k].userid)
      && ps[k] == PushRow(historyId, k + 1, messages[k], ps[k].userId, fs[k].value.0, fs[k].value.1)
  }

  /**
   * One turn of the loop over a record's messages: the commenter is get-or-created, then
   * the address and time are read (a field that does not match raises), and the row for
   * `floor` is built; a non-empty address gets its placeholder.
   */
  method AddPush(s: Session, historyId: nat, floor: int, m: Message, fields: Option<(string, PushStamp)>)
    returns (p: Push)
    requires s.Valid()
    modifies s.users, s.ipAsns
    ensures s.Valid()
    ensures UsersGrew(old(s.users.rows), s.users.rows) && AddressesGrew(old(s.ipAsns.rows), s.ipAsns.rows)
    ensures s.users.committed == old(s.users.committed) && s.ipAsns.committed == old(s.ipAsns.committed)
    ensures HasUser(s.users.rows, p.userId, m.userid)
    ensures fields.Some? ==> p == PushRow(historyId, floor, m, p.userId, fields.value.0, fields.value.1)
  {
    var u := EnsureUser(s, m.userid);
    var i :| 0 <= i < |s.users.rows| && s.users.rows[i] == u;
    assert HasUser(s.users.rows, u.id, m.userid);
    if fields.None? {
      return Push(historyId, floor, m.tag, u.id, m.content, None, PushStamp(1, 1, 0, 0));
    }
    var (ip, stamp) := fields.value;
    p := PushRow(historyId, floor, m, u.id, ip, stamp);
    if ip != [] {
      EnsureAddress(s, ip);
    }
  }

  /**
   * The loop over a record's messages, numbering the rows from floor 1; the first field
   * that cannot be read ends the record.
   */
  method CollectPushes(s: Session, historyId: nat, messages: seq<Message>) returns (ok: bool, ps: seq<Push>)
    requires s.Valid()
    modifies s.users, s.ipAsns
    ensures s.Valid()
    ensures UsersGrew(old(s.users.rows), s.users.rows) && AddressesGrew(old(s.ipAsns.rows), s.ipAsns.rows)
    ensures s.users.committed == old(s.users.committed) && s.ipAsns.committed == old(s.ipAsns.committed)
    ensures ok <==> AllStamped(FieldsOf(messages))
    ensures ok ==> |ps| == |messages| && PushesOf(ps, historyId, messages, FieldsOf(messages), s.users.rows)
  {
    ghost var fs := FieldsOf(messages);
    ps := [];
    var i := 0;
    while i < |messages|
      invariant 0 <= i <= |messages| && |ps| == i
      invariant s.Valid()
      invariant PushesOf(ps, historyId, messages, fs, s.users.rows)
      invariant UsersGrew(old(s.users.rows), s.users.rows) && AddressesGrew(old(s.ipAsns.rows), s.ipAsns.rows)
      invariant s.users.committed == old(s.users.committed) && s.ipAsns.committed == old(s.ipAsns.committed)
    {
      ghost var usersBefore := s.users.rows;
      ghost var ipsBefore := s.ipAsns.rows;
      var fields := ParsePushIpDatetime(messages[i].ipdatetime);
      var p := AddPush(s, historyId, i + 1, messages[i], fields);
      UsersGrewTrans(old(s.users.rows), usersBefore, s.users.rows);
      AddressesGrewTrans(old(s.ipAsns.rows), ipsBefore, s.ipAsns.rows);
      assert fields == fs[i];
      if fields.None? {
        return false, ps;
      }
      KeepsUsers(ps, historyId, messages, fs, usersBefore, s.users.rows);
      PushesStep(ps, p, historyId, messages, fs, s.users.rows);
      ps := ps + [p];
      i := i + 1;
    }
    ok := true;
  }

  /** Appending the row of the next message keeps the correspondence. */
  lemma PushesStep(ps: seq<Push>, p: Push, historyId: nat, messages: seq<Message>, fs: seq<Option<(string, PushStamp)>>,
                   users: seq<Stored<User>>)
    requires PushesOf(ps, historyId, messages, fs, users)
    requires |ps| < |messages| && |ps| < |fs| && fs[|ps|].Some?
    requires HasUser(users, p.userId, messages[|ps|].userid)
    requires p == PushRow(historyId, |ps| + 1, messages[|ps|], p.userId, fs[|ps|].value.0, fs[|ps|].value.1)
    ensures PushesOf(ps + [p], historyId, messages, fs, users)
  {
    var qs := ps + [p];
    forall k | 0 <= k < |qs|
      ensures fs[k].Some? && HasUser(users, qs[k].userId, messages[k].userid)
      && qs[k] == PushRow(historyId, k + 1, messages[k], qs[k].userId, fs[k].value.0, fs[k].value.1)
    {
      if k < |ps| {
        assert qs[k] == ps[k];
      }
    }
  }

  /** Rows that only grew keep every user the queued comments point at. */
  lemma KeepsUsers(ps: seq<Push>, historyId: nat, messages: seq<Message>, fs: seq<Option<(string, PushStamp)>>,
                   before: seq<Stored<User>>, after: seq<Stored<User>>)
    requires PushesOf(ps, historyId, messages, fs, before) && Grown(before, after)
    ensures PushesOf(ps, historyId, messages, fs, after)
  {
    forall k | 0 <= k < |ps| ensures HasUser(after, ps[k].userId, messages[k].userid) {
      var i :| 0 <= i < |before| && before[i].id == ps[k].userId && before[i].val.username == messages[k].userid;
      assert after[i] == before[i];
    }
  }

  // ---------------------------------------------------------------- one record

  /** Some board row has id `id` and name `name`. */
  predicate HasBoard(rows: seq<Stored<Board>>, id: nat, name: string) {
    exists i | 0 <= i < |rows| :: rows[i].id == id && rows[i].val.name == name
  }

  /** The author and the board of a record, each get-or-created by name. */
  method EnsureOwners(s: Session, author: string, boardName: string) returns (user: Stored<User>, board: Stored<Board>)
    requires s.Valid()
    modifies s.users, s.boards
    ensures s.Valid()
    ensures UsersGrew(old(s.users.rows), s.users.rows) && Grown(old(s.boards.rows), s.boards.rows)
    ensures HasUser(s.users.rows, user.id, author) && HasBoard(s.boards.rows, board.id, boardName)
    ensures s.users.committed == old(s.users.committed) && s.boards.committed == old(s.boards.committed)
  {
    user := EnsureUser(s, author);
    board := EnsureBoard(s, boardName);
    var ui :| 0 <= ui < |s.users.rows| && s.users.rows[ui] == user;
    var bi :| 0 <= bi < |s.boards.rows| && s.boards.rows[bi] == board;
  }

  /**
   * The article of a record, looked up by web id and created when absent, then the
   * placeholder for its sender address. A new article without an address breaks the
   * flush (post_ip is NOT NULL) and the session with it.
   */
  method StoreArticle(s: Session, rec: ArticleRecord, userId: nat, boardId: nat, posted: Instant)
    returns (ok: bool, article: Stored<Article>, isNew: bool)
    requires s.Valid() && !s.broken
    modifies s, s.Tables()
    ensures s.Valid() && s.time.now == old(s.time.now) && s.CommittedKept()
    ensures isNew <==> old(s.articles.Get(ArticleWithId(rec.articleId))).None?
    ensures ok <==> (isNew ==> rec.ip.Some?)
    ensures s.broken <==> !ok
    ensures !ok ==> s.Settled()
    ensures ok ==> (s.users.rows == old(s.users.rows) && s.boards.rows == old(s.boards.rows)
                    && AddressesGrew(old(s.ipAsns.rows), s.ipAsns.rows)
                    && s.histories.rows == old(s.histories.rows) && s.pushes.rows == old(s.pushes.rows)
                    && s.lastRecords.rows == old(s.lastRecords.rows) && s.indexes.rows == old(s.indexes.rows)
                    && s.pushes.nextId == old(s.pushes.nextId))
    ensures ok ==> article in s.articles.rows && article.val.webId == rec.articleId
    ensures ok && !isNew ==> (article == old(s.articles.Get(ArticleWithId(rec.articleId))).value
                              && s.articles.rows == old(s.articles.rows))
    ensures ok && isNew ==> (article == Stored(old(s.articles.nextId), Article(rec.articleId, userId, boardId, posted, rec.ip))
                             && s.articles.rows == old(s.articles.rows) + [article])
    ensures ok && rec.ip.Some? && rec.ip.value != [] ==>
      exists i | 0 <= i < |s.ipAsns.rows| :: s.ipAsns.rows[i].val.ip == rec.ip.value
  {
    isNew := s.articles.Get(ArticleWithId(rec.articleId)).None?;
    var created;
    ok, article, created := s.articles.GetOrCreate(ArticleWithId(rec.articleId),
                                                   Article(rec.articleId, userId, boardId, posted, rec.ip), false);
    if !ok {
      s.Fail();
      return;
    }
    if rec.ip.Some? && rec.ip.value != [] {
      EnsureAddress(s, rec.ip.value);
    }
  }

  /** bulk_insert(push_list, auto_commit=False): the rows queued for a record, numbered in order. */
  method InsertPushes(s: Session, ps: seq<Push>)
    requires s.Valid()
    modifies s.pushes
    ensures s.Valid()
    ensures s.pushes.rows == old(s.pushes.rows) + Numbered(old(s.pushes.nextId), ps)
    ensures s.pushes.committed == old(s.pushes.committed)
  {
    var ok := s.pushes.BulkInsert(ps, false);
  }

  /** What happened to one record. */
  datatype Outcome =
    /** Not upgrading, and the article is stored already. */
    | Skipped
    /** The record raised; the rest of the batch is not written. */
    | Aborted
    /**
     * The record was committed: its article, the time its previous latest version
     * was closed (None for a new article), its new version and its comment rows.
     */
    | Persisted(article: Stored<Article>, closedAt: Option<Instant>, history: Stored<ArticleHistory>, pushes: seq<Push>)

  /**
   * Whether a record whose owners are stored goes through, given the article found
   * under its web id: a new article has an address (post_ip is NOT NULL), a stored
   * article has a version to close, and every comment's address and time read.
   */
  predicate Writable(rec: ArticleRecord, found: Option<Stored<Article>>, histories: seq<Stored<ArticleHistory>>) {
    (found.None? ==> rec.ip.Some?)
    && (found.Some? ==> History(histories, found.value.id) != [])
    && AllStamped(FieldsOf(rec.messages))
  }

  /**
   * The version and the comment rows of one record, once its article is stored:
   * nothing is written to the comment table yet.
   */
  method WriteContent(s: Session, articleId: nat, isNew: bool, rec: ArticleRecord)
    returns (ok: bool, closedAt: Option<Instant>, history: Stored<ArticleHistory>, ps: seq<Push>)
    requires s.Valid()
    modifies s.time, s.histories, s.users, s.ipAsns
    ensures s.Valid() && s.time.now >= old(s.time.now)
    ensures s.histories.committed == old(s.histories.committed) && s.users.committed == old(s.users.committed)
    ensures s.ipAsns.committed == old(s.ipAsns.committed)
    ensures UsersGrew(old(s.users.rows), s.users.rows) && AddressesGrew(old(s.ipAsns.rows), s.ipAsns.rows)
    ensures ok <==> (isNew || History(old(s.histories.rows), articleId) != []) && AllStamped(FieldsOf(rec.messages))
    ensures ok ==> (closedAt.None? <==> isNew)
    ensures ok ==> VersionAdded(old(s.histories.rows), s.histories.rows, history, closedAt, articleId, rec.title, rec.content, old(s.time.now))
    ensures ok ==> |ps| == |rec.messages| && PushesOf(ps, history.id, rec.messages, FieldsOf(rec.messages), s.users.rows)
  {
    ps := [];
    var written;
    written, closedAt, history := WriteVersion(s, articleId, isNew, rec.title, rec.content);
    if !written {
      return false, closedAt, history, ps;
    }
    ok, ps := CollectPushes(s, history.id, rec.messages);
  }

  /**
   * The rest of one record's transaction once its article is stored: the version,
   * the comment rows, their bulk insert and the commit.
   */
  method FinishRecord(s: Session, articleId: nat, isNew: bool, rec: ArticleRecord)
    returns (ok: bool, closedAt: Option<Instant>, history: Stored<ArticleHistory>, ps: seq<Push>)
    requires s.Valid()
    modifies s.time, s.users, s.lastRecords, s.boards, s.articles, s.histories, s.pushes, s.ipAsns, s.indexes
    ensures s.Valid() && s.time.now >= old(s.time.now)
    ensures ok <==> (isNew || History(old(s.histories.rows), articleId) != []) && AllStamped(FieldsOf(rec.messages))
    ensures !ok ==> s.CommittedKept()
    ensures ok ==> s.Settled() && (closedAt.None? <==> isNew)
    ensures ok ==> VersionAdded(old(s.histories.rows), s.histories.rows, history, closedAt, articleId, rec.title, rec.content, old(s.time.now))
    ensures ok ==> (|ps| == |rec.messages| && PushesOf(ps, history.id, rec.messages, FieldsOf(rec.messages), s.users.rows)
                    && s.pushes.rows == old(s.pushes.rows) + Numbered(old(s.pushes.nextId), ps))
    ensures ok ==> (UsersGrew(old(s.users.rows), s.users.rows) && AddressesGrew(old(s.ipAsns.rows), s.ipAsns.rows)
                    && s.articles.rows == old(s.articles.rows) && s.boards.rows == old(s.boards.rows)
                    && s.lastRecords.rows == old(s.lastRecords.rows) && s.indexes.rows == old(s.indexes.rows))
  {
    ok, closedAt, history, ps := WriteContent(s, articleId, isNew, rec);
    if !ok {
      return;
    }
    InsertPushes(s, ps);
    s.CommitAccounts();
    s.CommitPosts();
  }

  /**
   * The part of one record's transaction after its owners are known: the article,
   * the closing of its previous version, the new version, the comments and the commit.
   */
  method WriteRecord(s: Session, rec: ArticleRecord, userId: nat, boardId: nat, posted: Instant) returns (r: Outcome)
    requires s.Valid() && !s.broken
    modifies s, s.Tables(), s.time
    ensures s.Valid() && s.time.now >= old(s.time.now)
    ensures !r.Skipped?
    ensures r.Persisted? <==> Writable(rec, old(s.articles.Get(ArticleWithId(rec.articleId))), old(s.histories.rows))
    ensures s.broken <==> old(s.articles.Get(ArticleWithId(rec.articleId))).None? && rec.ip.None?
    ensures r.Aborted? ==> s.CommittedKept()
    ensures r.Persisted? ==> s.Settled()
    ensures r.Persisted? ==> (r.article in s.articles.rows && r.article.val.webId == rec.articleId
      && (r.closedAt.None? <==> old(s.articles.Get(ArticleWithId(rec.articleId))).None?)
      && (r.closedAt.Some? ==>
            r.article == old(s.articles.Get(ArticleWithId(rec.articleId))).value && s.articles.rows == old(s.articles.rows))
      && (r.closedAt.None? ==>
            r.article == Stored(old(s.articles.nextId), Article(rec.articleId, userId, boardId, posted, rec.ip))
            && s.articles.rows == old(s.articles.rows) + [r.article]))
    ensures r.Persisted? ==>
      VersionAdded(old(s.histories.rows), s.histories.rows, r.history, r.closedAt, r.article.id, rec.title, rec.content, old(s.time.now))
    ensures r.Persisted? ==> (|r.pushes| == |rec.messages|
      && PushesOf(r.pushes, r.history.id, rec.messages, FieldsOf(rec.messages), s.users.rows)
      && s.pushes.rows == old(s.pushes.rows) + Numbered(old(s.pushes.nextId), r.pushes))
    ensures r.Persisted? ==> (UsersGrew(old(s.users.rows), s.users.rows) && AddressesGrew(old(s.ipAsns.rows), s.ipAsns.rows)
      && s.boards.rows == old(s.boards.rows) && s.lastRecords.rows == old(s.lastRecords.rows)
      && s.indexes.rows == old(s.indexes.rows))
  {
    var ok, article, isNew := StoreArticle(s, rec, userId, boardId, posted);
    if !ok {
      return Aborted;
    }
    ghost var addresses := s.ipAsns.rows;
    var finished, closedAt, history, ps := FinishRecord(s, article.id, isNew, rec);
    assert !s.broken;
    if !finished {
      return Aborted;
    }
    AddressesGrewTrans(old(s.ipAsns.rows), addresses, s.ipAsns.rows);
    r := Persisted(article, closedAt, history, ps);
  }

  lemma HasUserGrown(before: seq<Stored<User>>, after: seq<Stored<User>>, id: nat, name: string)
    requires HasUser(before, id, name) && Grown(before, after)
    ensures HasUser(after, id, name)
  {
    var i :| 0 <= i < |before| && before[i].id == id && before[i].val.username == name;
    assert after[i] == before[i];
  }

  /**
   * What a committed record leaves behind, relative to the state before it: nothing
   * is pending; the article under the record's web id is the one found there (and the
   * article table is unchanged) or a new row carrying the record's date and address,
   * its author and its board; one new version holds the record's title and content,
   * the previous latest version having been closed first for a stored article; and
   * one comment row per message, at floors 1..n, was appended. Users and address
   * placeholders were only added; login records and the index were not touched.
   */
  twostate predicate Landed(s: Session, rec: ArticleRecord, fm: Formats, r: Outcome)
    reads s.users, s.lastRecords, s.boards, s.articles, s.histories, s.pushes, s.ipAsns, s.indexes
  {
    r.Persisted? && s.Settled()
    && r.article in s.articles.rows && r.article.val.webId == rec.articleId
    && (r.closedAt.Some? ==>
          old(s.articles.Get(ArticleWithId(rec.articleId))) == Some(r.article) && s.articles.rows == old(s.articles.rows))
    && (r.closedAt.None? ==>
          old(s.articles.Get(ArticleWithId(rec.articleId))).None?
          && r.article.id == old(s.articles.nextId) && s.articles.rows == old(s.articles.rows) + [r.article]
          && fm.readDisplay(rec.date) == Some(r.article.val.postDatetime) && r.article.val.postIp == rec.ip
          && HasUser(s.users.rows, r.article.val.userId, ParseAuthor(rec.author))
          && HasBoard(s.boards.rows, r.article.val.boardId, rec.board))
    && VersionAdded(old(s.histories.rows), s.histories.rows, r.history, r.closedAt, r.article.id, rec.title, rec.content, old(s.time.now))
    && |r.pushes| == |rec.messages|
    && PushesOf(r.pushes, r.history.id, rec.messages, FieldsOf(rec.messages), s.users.rows)
    && s.pushes.rows == old(s.pushes.rows) + Numbered(old(s.pushes.nextId), r.pushes)
    && UsersGrew(old(s.users.rows), s.users.rows) && AddressesGrew(old(s.ipAsns.rows), s.ipAsns.rows)
    && Grown(old(s.boards.rows), s.boards.rows) && s.lastRecords.rows == old(s.lastRecords.rows)
    && s.indexes.rows == old(s.indexes.rows)
  }

  /**
   * One record once it is known not to be skipped: its author and board are
   * get-or-created, its date is read (strptime raises on a date it cannot read),
   * and the rest of the transaction follows.
   */
  method OwnRecord(s: Session, rec: ArticleRecord, fm: Formats) returns (r: Outcome)
    requires s.Valid() && !s.broken
    modifies s, s.Tables(), s.time
    ensures s.Valid() && s.time.now >= old(s.time.now)
    ensures !r.Skipped?
    ensures r.Persisted? <==>
      fm.readDisplay(rec.date).Some? && Writable(rec, old(s.articles.Get(ArticleWithId(rec.articleId))), old(s.histories.rows))
    ensures s.broken <==>
      fm.readDisplay(rec.date).Some? && old(s.articles.Get(ArticleWithId(rec.articleId))).None? && rec.ip.None?
    ensures r.Aborted? ==> s.CommittedKept()
    ensures r.Persisted? ==> Landed(s, rec, fm, r)
  {
    var user, board := EnsureOwners(s, ParseAuthor(rec.author), rec.board);
    var posted := fm.readDisplay(rec.date);
    if posted.None? {
      return Aborted;
    }
    ghost var users, boards := s.users.rows, s.boards.rows;
    r := WriteRecord(s, rec, user.id, board.id, posted.value);
    if r.Persisted? {
      UsersGrewTrans(old(s.users.rows), users, s.users.rows);
      HasUserGrown(users, s.users.rows, user.id, ParseAuthor(rec.author));
    }
  }

  /**
   * One iteration of the loop over the records: the author's user name is taken
   * from the author field; without the upgrade flag a record whose article is
   * stored already is skipped; otherwise the record is written in one transaction.
   * A session a failed flush left unusable raises at its first use.
   */
  method PersistRecord(s: Session, rec: ArticleRecord, upgrade: bool, fm: Formats) returns (r: Outcome)
    requires s.Valid()
    modifies s, s.Tables(), s.time
    ensures s.Valid() && s.time.now >= old(s.time.now)
    ensures old(s.broken) ==> r.Aborted? && s.broken && s.RowsKept()
    ensures r.Skipped? <==> !old(s.broken) && !upgrade && old(s.articles.Get(ArticleWithId(rec.articleId))).Some?
    ensures r.Skipped? ==> s.RowsKept() && !s.broken
    ensures r.Persisted? <==>
      !old(s.broken) && (upgrade || old(s.articles.Get(ArticleWithId(rec.articleId))).None?)
      && fm.readDisplay(rec.date).Some? && Writable(rec, old(s.articles.Get(ArticleWithId(rec.articleId))), old(s.histories.rows))
    ensures s.broken <==>
      old(s.broken)
      || (fm.readDisplay(rec.date).Some? && old(s.articles.Get(ArticleWithId(rec.articleId))).None? && rec.ip.None?)
    ensures !r.Persisted? ==> s.CommittedKept()
    ensures r.Persisted? ==> Landed(s, rec, fm, r)
  {
    if s.broken {
      return Aborted;
    }
    if !upgrade && s.articles.Get(ArticleWithId(rec.articleId)).Some? {
      return Skipped;
    }
    r := OwnRecord(s, rec, fm);
  }

  // ---------------------------------------------------------------- a batch of records

  /** The outcomes of a batch: one per record reached, only the last one aborted, if any. */
  predicate BatchShape(records: seq<Parsed>, outcomes: seq<Outcome>, upgrade: bool) {
    |outcomes| <= |records|
    && (forall k | 0 <= k < |outcomes| - 1 :: !outcomes[k].Aborted?)
    && (forall k | 0 <= k < |outcomes| :: records[k].InvalidUrl? ==> outcomes[k].Aborted?)
    && (forall k | 0 <= k < |outcomes| :: outcomes[k].Skipped? ==> !upgrade)
    && (forall k | 0 <= k < |outcomes| :: outcomes[k].Persisted? ==>
          records[k].Record? && outcomes[k].article.val.webId == records[k].rec.articleId
          && |outcomes[k].pushes| == |records[k].rec.messages|)
  }

  lemma ShapeStep(records: seq<Parsed>, outcomes: seq<Outcome>, r: Outcome, upgrade: bool)
    requires BatchShape(records, outcomes, upgrade) && |outcomes| < |records|
    requires forall k | 0 <= k < |outcomes| :: !outcomes[k].Aborted?
    requires records[|outcomes|].InvalidUrl? ==> r.Aborted?
    requires r.Skipped? ==> !upgrade
    requires r.Persisted? ==> records[|outcomes|].Record? && r.article.val.webId == records[|outcomes|].rec.articleId
                              && |r.pushes| == |records[|outcomes|].rec.messages|
    ensures BatchShape(records, outcomes + [r], upgrade)
  {
    var os := outcomes + [r];
    forall k | 0 <= k < |os| ensures os[k] == (if k < |outcomes| then outcomes[k] else r) {
    }
  }

  /** One element of the batch: an error record raises at its author field; a record is persisted. */
  method PersistParsed(s: Session, p: Parsed, upgrade: bool, fm: Formats) returns (r: Outcome)
    requires s.Valid()
    modifies s, s.Tables(), s.time
    ensures s.Valid() && s.time.now >= old(s.time.now)
    ensures p.InvalidUrl? || old(s.broken) ==> r.Aborted?
    ensures r.Skipped? ==> !upgrade
    ensures r.Persisted? ==> (p.Record? && r.article.val.webId == p.rec.articleId
                              && |r.pushes| == |p.rec.messages| && s.Settled())
  {
    if p.InvalidUrl? {
      return Aborted;
    }
    r := PersistRecord(s, p.rec, upgrade, fm);
  }

  /**
   * _output_database: the records in order, each in its own transaction. The first
   * record that raises ends the batch, the exception being swallowed by the log
   * decorator: an error record (its author field is missing), an unreadable date, a
   * failed flush or a session left unusable. The records after it are not reached.
   */
  method OutputDatabase(s: Session, records: seq<Parsed>, upgrade: bool, fm: Formats) returns (outcomes: seq<Outcome>)
    requires s.Valid()
    modifies s, s.Tables(), s.time
    ensures s.Valid() && s.time.now >= old(s.time.now)
    ensures BatchShape(records, outcomes, upgrade)
    ensures |outcomes| == |records| || (outcomes != [] && outcomes[|outcomes| - 1].Aborted?)
    ensures old(s.broken) && records != [] ==> outcomes == [Aborted]
    ensures outcomes != [] && outcomes[|outcomes| - 1].Persisted? ==> s.Settled()
  {
    outcomes := [];
    var i := 0;
    while i < |records|
      invariant 0 <= i <= |records| && |outcomes| == i
      invariant s.Valid() && s.time.now >= old(s.time.now)
      invariant BatchShape(records, outcomes, upgrade)
      invariant NoneAborted(outcomes)
      invariant i == 0 ==> s.broken == old(s.broken)
      invariant i > 0 ==> !old(s.broken)
      invariant outcomes != [] && outcomes[|outcomes| - 1].Persisted? ==> s.Settled()
    {
      var r := PersistParsed(s, records[i], upgrade, fm);
      ShapeStep(records, outcomes, r, upgrade);
      if r.Aborted? {
        outcomes := outcomes + [r];
        return;
      }
      NoneAbortedSnoc(outcomes, r);
      outcomes := outcomes + [r];
      i := i + 1;
    }
  }

  /** No record reached so far aborted the batch. */
  predicate NoneAborted(outcomes: seq<Outcome>) {
    forall k | 0 <= k < |outcomes| :: !outcomes[k].Aborted?
  }

  lemma NoneAbortedSnoc(outcomes: seq<Outcome>, r: Outcome)
    requires NoneAborted(outcomes) && !r.Aborted?
    ensures NoneAborted(outcomes + [r])
  {
    assert forall k | 0 <= k < |outcomes| :: (outcomes + [r])[k] == outcomes[k];
  }

  /**
   * What _output_database reports for a list: the outcomes of BatchShape, one for every
   * record unless the last one reached aborted the rest.
   */
  predicate Handled(records: seq<Parsed>, outcomes: seq<Outcome>, upgrade: bool) {
    && BatchShape(records, outcomes, upgrade)
    && (|outcomes| == |records| || (outcomes != [] && outcomes[|outcomes| - 1].Aborted?))
  }

  // ---------------------------------------------------------------- the index rows of a page

  /** One article link of an index page: its web id, its URL and the page number. */
  datatype IndexEntry = IndexEntry(webId: string, link: string, page: int)

  /** The objects _output_index_to_database merges, all under the crawled board's id. */
  function IndexRows(entries: seq<IndexEntry>, boardId: nat): (r: seq<ArticleIndex>)
    ensures |r| == |entries|
    ensures forall k | 0 <= k < |r| :: r[k] == ArticleIndex(entries[k].webId, boardId, entries[k].page)
  {
    seq(|entries|, k requires 0 <= k < |entries| => ArticleIndex(entries[k].webId, boardId, entries[k].page))
  }

  /** bulk_update(ArticleIndex, objs) without its commit: every object is merged by web id. */
  method MergeIndexes(s: Session, objs: seq<ArticleIndex>)
    requires s.Valid()
    modifies s.indexes
    ensures s.Valid()
    ensures s.indexes.rows == UpsertAll(old(s.indexes.rows), old(s.indexes.nextId), objs, IndexWebId, Replace).0
    ensures s.indexes.committed == old(s.indexes.committed)
    ensures KeysUnique(old(s.indexes.rows), IndexWebId) ==>
      forall k | 0 <= k < |objs| && (forall j | k < j < |objs| :: objs[j].webId != objs[k].webId) ::
        KeyIndex(s.indexes.rows, IndexWebId, objs[k].webId).Some?
        && s.indexes.rows[KeyIndex(s.indexes.rows, IndexWebId, objs[k].webId).value].val == objs[k]
  {
    ghost var rows, nextId := s.indexes.rows, s.indexes.nextId;
    if KeysUnique(rows, IndexWebId) {
      UpsertAllLatest(rows, nextId, objs, IndexWebId);
    }
    var ok := s.indexes.BulkUpdate(objs, IndexWebId, Replace, false);
    assert ok by {
      var (rs, n) := UpsertAll(rows, nextId, objs, IndexWebId, Replace);
      assert forall i | 0 <= i < |rs| :: AnyRow(rs[i].val);
    }
  }

  /**
   * _output_index_to_database: the board is looked up by name, one index object per
   * entry is merged by web id, and the session is committed (bulk_update commits by
   * default, so whatever else was pending is committed with it). With no such board,
   * the first entry raises; so does a session left unusable. Nothing is caught here.
   */
  method OutputIndex(s: Session, boardName: string, entries: seq<IndexEntry>) returns (ok: bool, boardId: nat)
    requires s.Valid()
    modifies s.Tables()
    ensures s.Valid()
    ensures ok <==> !old(s.broken) && (entries == [] || old(s.boards.Get(BoardNamed(boardName))).Some?)
    ensures !ok ==> s.RowsKept() && s.CommittedKept()
    ensures ok && entries != [] ==> boardId == old(s.boards.Get(BoardNamed(boardName))).value.id
    ensures ok ==> s.Settled()
    ensures ok ==> s.indexes.rows == UpsertAll(old(s.indexes.rows), old(s.indexes.nextId), IndexRows(entries, boardId), IndexWebId, Replace).0
    ensures ok ==> (s.users.rows == old(s.users.rows) && s.lastRecords.rows == old(s.lastRecords.rows)
                    && s.boards.rows == old(s.boards.rows) && s.articles.rows == old(s.articles.rows)
                    && s.histories.rows == old(s.histories.rows) && s.pushes.rows == old(s.pushes.rows)
                    && s.ipAsns.rows == old(s.ipAsns.rows))
    ensures ok && KeysUnique(old(s.indexes.rows), IndexWebId) ==>
      forall k | 0 <= k < |entries| && (forall j | k < j < |entries| :: entries[j].webId != entries[k].webId) ::
        KeyIndex(s.indexes.rows, IndexWebId, entries[k].webId).Some?
        && s.indexes.rows[KeyIndex(s.indexes.rows, IndexWebId, entries[k].webId).value].val
           == ArticleIndex(entries[k].webId, boardId, entries[k].page)
  {
    boardId := 0;
    if s.broken {
      return false, boardId;
    }
    var board := s.boards.Get(BoardNamed(boardName));
    if board.None? && entries != [] {
      return false, boardId;
    }
    if board.Some? {
      boardId := board.value.id;
    }
    StoreIndexRows(s, entries, boardId);
    ok := true;
  }

  /** The page's objects merged under `boardId` and the session committed. */
  method StoreIndexRows(s: Session, entries: seq<IndexEntry>, boardId: nat)
    requires s.Valid() && !s.broken
    modifies s.Tables()
    ensures s.Valid() && s.Settled()
    ensures s.indexes.rows == UpsertAll(old(s.indexes.rows), old(s.indexes.nextId), IndexRows(entries, boardId), IndexWebId, Replace).0
    ensures && s.users.rows == old(s.users.rows) && s.lastRecords.rows == old(s.lastRecords.rows)
            && s.boards.rows == old(s.boards.rows) && s.articles.rows == old(s.articles.rows)
            && s.histories.rows == old(s.histories.rows) && s.pushes.rows == old(s.pushes.rows)
            && s.ipAsns.rows == old(s.ipAsns.rows)
    ensures KeysUnique(old(s.indexes.rows), IndexWebId) ==>
      forall k | 0 <= k < |entries| && (forall j | k < j < |entries| :: entries[j].webId != entries[k].webId) ::
        KeyIndex(s.indexes.rows, IndexWebId, entries[k].webId).Some?
        && s.indexes.rows[KeyIndex(s.indexes.rows, IndexWebId, entries[k].webId).value].val
           == ArticleIndex(entries[k].webId, boardId, entries[k].page)
  {
    var objs := IndexRows(entries, boardId);
    MergeIndexes(s, objs);
    s.CommitAll();
  }
}
