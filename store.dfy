/**
 * The ORM session the crawlers share: one table per mapped class, the clock
 * that datetime.now() reads, and whether a failed flush has left the session
 * needing a rollback the crawler never issues.
 */
module Store {
  import opened Wrappers
  import opened Gateway
  import opened Records

  /** Every version's start_at and end_at is a reading no later than t. */
  ghost predicate VersionsBefore(hs: seq<Stored<ArticleHistory>>, t: Instant) {
    forall i | 0 <= i < |hs| :: hs[i].val.startAt <= t && hs[i].val.endAt <= t
  }

  /** Every login record's created_at is a reading no later than t. */
  ghost predicate RecordsBefore(rs: seq<Stored<UserLastRecord>>, t: Instant) {
    forall i | 0 <= i < |rs| :: rs[i].val.createdAt <= t
  }

  lemma VersionsLater(hs: seq<Stored<ArticleHistory>>, t: Instant, u: Instant)
    requires VersionsBefore(hs, t) && t <= u
    ensures VersionsBefore(hs, u)
  {
  }

  lemma RecordsLater(rs: seq<Stored<UserLastRecord>>, t: Instant, u: Instant)
    requires RecordsBefore(rs, t) && t <= u
    ensures RecordsBefore(rs, u)
  {
  }

  lemma VersionsAppend(hs: seq<Stored<ArticleHistory>>, h: Stored<ArticleHistory>, t: Instant)
    requires VersionsBefore(hs, t) && h.val.startAt <= t && h.val.endAt <= t
    ensures VersionsBefore(hs + [h], t)
  {
    forall i | 0 <= i < |hs| + 1 ensures (hs + [h])[i].val.startAt <= t && (hs + [h])[i].val.endAt <= t {
      if i < |hs| {
        assert (hs + [h])[i] == hs[i];
      }
    }
  }

  lemma VersionsUpdate(hs: seq<Stored<ArticleHistory>>, i: nat, h: Stored<ArticleHistory>, t: Instant)
    requires VersionsBefore(hs, t) && i < |hs| && h.val.startAt <= t && h.val.endAt <= t
    ensures VersionsBefore(hs[i := h], t)
  {
  }

  /** The wall clock datetime.now() reads. */
  class Clock {
    /** The last reading. */
    var now: Instant

    constructor ()
      ensures now == 0
    {
      now := 0;
    }

    /** datetime.now() on its own: a reading no earlier than the last. */
    method Read() returns (t: Instant)
      modifies this
      ensures t == now && t >= old(now)
    {
      t :| t >= now;
      now := t;
    }
  }

  class Session {
    const time: Clock
    const users: Table<User>
    const lastRecords: Table<UserLastRecord>
    const boards: Table<Board>
    const articles: Table<Article>
    const histories: Table<ArticleHistory>
    const pushes: Table<Push>
    const ipAsns: Table<IpAsn>
    const indexes: Table<ArticleIndex>
    /** A flush failed: every later use of the session raises until a rollback. */
    var broken: bool

    ghost function Tables(): set<object> {
      {users, lastRecords, boards, articles, histories, pushes, ipAsns, indexes}
    }

    /** The eight tables are eight different objects. */
    ghost predicate Distinct() {
      users as object != lastRecords && users as object != boards && users as object != articles
      && users as object != histories && users as object != pushes && users as object != ipAsns
      && users as object != indexes && lastRecords as object != boards && lastRecords as object != articles
      && lastRecords as object != histories && lastRecords as object != pushes
      && lastRecords as object != ipAsns && lastRecords as object != indexes && boards as object != articles
      && boards as object != histories && boards as object != pushes && boards as object != ipAsns
      && boards as object != indexes && articles as object != histories && articles as object != pushes
      && articles as object != ipAsns && articles as object != indexes && histories as object != pushes
      && histories as object != ipAsns && histories as object != indexes && pushes as object != ipAsns
      && pushes as object != indexes && ipAsns as object != indexes
    }

    ghost predicate Valid()
      reads time, users, lastRecords, boards, articles, histories, pushes, ipAsns, indexes
    {
      Distinct()
      && users.Valid() && lastRecords.Valid() && boards.Valid() && articles.Valid()
      && histories.Valid() && pushes.Valid() && ipAsns.Valid() && indexes.Valid()
      && articles.admits == ArticleAdmits && users.admits == AnyRow && lastRecords.admits == AnyRow
      && boards.admits == AnyRow && histories.admits == AnyRow && pushes.admits == AnyRow
      && ipAsns.admits == AnyRow && indexes.admits == AnyRow
      && VersionsBefore(histories.rows, time.now) && VersionsBefore(histories.committed, time.now)
      && RecordsBefore(lastRecords.rows, time.now) && RecordsBefore(lastRecords.committed, time.now)
    }

    /** Nothing is pending: every table holds exactly its committed rows. */
    ghost predicate Settled()
      reads users, lastRecords, boards, articles, histories, pushes, ipAsns, indexes
    {
      users.rows == users.committed && lastRecords.rows == lastRecords.committed
      && boards.rows == boards.committed && articles.rows == articles.committed
      && histories.rows == histories.committed && pushes.rows == pushes.committed
      && ipAsns.rows == ipAsns.committed && indexes.rows == indexes.committed
    }

    /** No table's committed rows changed since the previous state. */
    twostate predicate CommittedKept()
      reads users, lastRecords, boards, articles, histories, pushes, ipAsns, indexes
    {
      users.committed == old(users.committed) && lastRecords.committed == old(lastRecords.committed)
      && boards.committed == old(boards.committed) && articles.committed == old(articles.committed)
      && histories.committed == old(histories.committed) && pushes.committed == old(pushes.committed)
      && ipAsns.committed == old(ipAsns.committed) && indexes.committed == old(indexes.committed)
    }

    /** No table's rows changed since the previous state. */
    twostate predicate RowsKept()
      reads users, lastRecords, boards, articles, histories, pushes, ipAsns, indexes
    {
      users.rows == old(users.rows) && lastRecords.rows == old(lastRecords.rows)
      && boards.rows == old(boards.rows) && articles.rows == old(articles.rows)
      && histories.rows == old(histories.rows) && pushes.rows == old(pushes.rows)
      && ipAsns.rows == old(ipAsns.rows) && indexes.rows == old(indexes.rows)
    }

    constructor ()
      ensures Valid() && !broken && fresh(time) && time.now == 0
      ensures articles.rows == [] && histories.rows == [] && pushes.rows == [] && users.rows == []
      ensures boards.rows == [] && ipAsns.rows == [] && indexes.rows == [] && lastRecords.rows == []
    {
      broken := false;
      time := new Clock();
      var u := new Table(AnyRow);
      var l := new Table(AnyRow);
      var b := new Table(AnyRow);
      var a := new Table(ArticleAdmits);
      var h := new Table(AnyRow);
      var p := new Table(AnyRow);
      var ip := new Table(AnyRow);
      var ix := new Table(AnyRow);
      users, lastRecords, boards, articles, histories, pushes, ipAsns, indexes := u, l, b, a, h, p, ip, ix;
    }

    /** datetime.now(): a reading no earlier than any earlier one. */
    method Now() returns (t: Instant)
      requires Valid()
      modifies time
      ensures Valid() && t == time.now && t >= old(time.now)
    {
      t :| t >= time.now;
      VersionsLater(histories.rows, time.now, t);
      VersionsLater(histories.committed, time.now, t);
      RecordsLater(lastRecords.rows, time.now, t);
      RecordsLater(lastRecords.committed, time.now, t);
      time.now := t;
    }

    /** Sets end_at of the version at position i of the history table to a new clock reading. */
    method CloseVersion(i: nat) returns (t: Instant)
      requires Valid() && i < |histories.rows|
      modifies time, histories
      ensures Valid() && t == time.now && t >= old(time.now)
      ensures histories.rows == old(histories.rows)[i := Stored(old(histories.rows)[i].id, old(histories.rows)[i].val.(endAt := t))]
      ensures histories.committed == old(histories.committed) && histories.nextId == old(histories.nextId)
    {
      t := Now();
      VersionsUpdate(histories.rows, i, Stored(histories.rows[i].id, histories.rows[i].val.(endAt := t)), t);
      var ok := histories.Update(i, histories.rows[i].val.(endAt := t));
    }

    /**
     * create(ArticleHistory, {..., 'start_at': datetime.now(), 'end_at': datetime.now()}):
     * a new version stamped with two successive clock readings.
     */
    method AddVersion(articleId: nat, title: string, content: string) returns (history: Stored<ArticleHistory>)
      requires Valid()
      modifies time, histories
      ensures Valid() && time.now >= old(time.now)
      ensures history == Stored(old(histories.nextId), history.val) && histories.rows == old(histories.rows) + [history]
      ensures history.val.articleId == articleId && history.val.title == title && history.val.content == content
      ensures old(time.now) <= history.val.startAt <= history.val.endAt == time.now
      ensures histories.committed == old(histories.committed)
    {
      var start := Now();
      var end := Now();
      VersionsAppend(histories.rows, Stored(histories.nextId, ArticleHistory(articleId, title, content, start, end)), end);
      var ok;
      ok, history := histories.Create(ArticleHistory(articleId, title, content, start, end), false);
    }

    /** session.commit() over every table. */
    method CommitAll()
      requires Valid()
      modifies Tables()
      ensures Valid() && Settled() && RowsKept()
    {
      CommitAccounts();
      CommitPosts();
    }

    /** The commit of the user, login-record, board and address tables. */
    method CommitAccounts()
      requires Valid()
      modifies users, lastRecords, boards, ipAsns
      ensures Valid()
      ensures users.committed == users.rows == old(users.rows)
      ensures lastRecords.committed == lastRecords.rows == old(lastRecords.rows)
      ensures boards.committed == boards.rows == old(boards.rows)
      ensures ipAsns.committed == ipAsns.rows == old(ipAsns.rows)
    {
      users.committed := users.rows;
      lastRecords.committed := lastRecords.rows;
      boards.committed := boards.rows;
      ipAsns.committed := ipAsns.rows;
    }

    /** The commit of the article, version, comment and index tables. */
    method CommitPosts()
      requires Valid()
      modifies articles, histories, pushes, indexes
      ensures Valid()
      ensures articles.committed == articles.rows == old(articles.rows)
      ensures histories.committed == histories.rows == old(histories.rows)
      ensures pushes.committed == pushes.rows == old(pushes.rows)
      ensures indexes.committed == indexes.rows == old(indexes.rows)
    {
      articles.committed := articles.rows;
      histories.committed := histories.rows;
      pushes.committed := pushes.rows;
      indexes.committed := indexes.rows;
    }

    /** A failed flush: the whole transaction is rolled back and the session is left unusable. */
    method Fail()
      requires Valid()
      modifies this, Tables()
      ensures Valid() && Settled() && CommittedKept() && broken
    {
      RollbackAccounts();
      RollbackPosts();
      broken := true;
    }

    /** The rollback of the user, login-record, board and address tables. */
    method RollbackAccounts()
      requires Valid()
      modifies users, lastRecords, boards, ipAsns
      ensures Valid()
      ensures users.rows == users.committed == old(users.committed)
      ensures lastRecords.rows == lastRecords.committed == old(lastRecords.committed)
      ensures boards.rows == boards.committed == old(boards.committed)
      ensures ipAsns.rows == ipAsns.committed == old(ipAsns.committed)
    {
      users.rows := users.committed;
      lastRecords.rows := lastRecords.committed;
      boards.rows := boards.committed;
      ipAsns.rows := ipAsns.committed;
    }

    /** The rollback of the article, version, comment and index tables. */
    method RollbackPosts()
      requires Valid()
      modifies articles, histories, pushes, indexes
      ensures Valid()
      ensures articles.rows == articles.committed == old(articles.committed)
      ensures histories.rows == histories.committed == old(histories.committed)
      ensures pushes.rows == pushes.committed == old(pushes.committed)
      ensures indexes.rows == indexes.committed == old(indexes.committed)
    {
      articles.rows := articles.committed;
      histories.rows := histories.committed;
      pushes.rows := pushes.committed;
      indexes.rows := indexes.committed;
    }
  }
}
