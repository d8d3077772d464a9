/**
 * crawler/user.py, PttUserCrawler: queries each id of the --id list on the PTT
 * terminal, reads the user's login count, valid article count, last login time and
 * last login address off the screen, and stores them: the user's counters are
 * created or overwritten, and every result adds one last-login record.
 */
module UserCrawler {
  import opened Wrappers
  import opened Text
  import opened Gateway
  import opened Records
  import opened Store
  import opened OutputConfig
  import ArticleSync

  // ---------------------------------------------------------------- the id list

  /** The ids of go: the --id argument split at commas, none when it is missing or empty. */
  function IdList(id: Option<string>): (r: seq<string>)
    ensures id.None? || id == Some("") ==> r == []
    ensures id.Some? && id.value != "" ==>
      |r| >= 1 && Join(r, [',']) == id.value && forall k | 0 <= k < |r| :: ',' !in r[k]
  {
    if id.None? || id.value == "" then []
    else
      JoinSplit(id.value, ',');
      Split(id.value, ',')
  }

  // ---------------------------------------------------------------- the query loop

  /** What the screen pattern captures: login count, valid article count, last login time, last login address. */
  datatype Groups = Groups(loginTimes: string, validArticleCount: string, lastLoginDatetime: string, lastLoginIp: string)

  /** One entry of crawler_result: the queried id and the four captured strings. */
  datatype Reading = Reading(username: string, loginTimes: string, validArticleCount: string,
                             lastLoginDatetime: string, lastLoginIp: string)

  function ReadingOf(id: string, g: Groups): Reading {
    Reading(id, g.loginTimes, g.validArticleCount, g.lastLoginDatetime, g.lastLoginIp)
  }

  /**
   * The loop of go over the id list: the screen each id's query shows, matched by the
   * pattern (`screen`, None when it does not match), gives one result per id, in
   * order. A screen that does not match raises at .group, and go ends there.
   */
  method Query(ids: seq<string>, screen: string -> Option<Groups>) returns (result: seq<Reading>, raised: bool)
    ensures raised <==> Unmatched(ids, screen)
    ensures !raised ==> |result| == |ids| && forall k | 0 <= k < |ids| :: result[k] == ReadingOf(ids[k], screen(ids[k]).value)
  {
    result := [];
    var i := 0;
    while i < |ids|
      invariant 0 <= i <= |ids| && |result| == i
      invariant forall k | 0 <= k < i :: screen(ids[k]).Some? && result[k] == ReadingOf(ids[k], screen(ids[k]).value)
    {
      var g := screen(ids[i]);
      if g.None? {
        return result, true;
      }
      result := result + [ReadingOf(ids[i], g.value)];
      i := i + 1;
    }
    raised := false;
  }

  /** Some id's screen does not match the pattern. */
  predicate Unmatched(ids: seq<string>, screen: string -> Option<Groups>) {
    exists k | 0 <= k < |ids| :: screen(ids[k]).None?
  }

  // ---------------------------------------------------------------- what _output_database stores

  function UserName(u: User): string { u.username }

  /** The user a result is stored as, both counters read by int(); None when either is not a number. */
  function UserOf(r: Reading): (u: Option<User>)
    ensures u.Some? <==> ParseDecimal(r.loginTimes).Some? && ParseDecimal(r.validArticleCount).Some?
    ensures u.Some? ==> u.value.username == r.username
  {
    match (ParseDecimal(r.loginTimes), ParseDecimal(r.validArticleCount))
    case (Some(lt), Some(vc)) => Some(User(r.username, Some(lt), Some(vc)))
    case _ => None
  }

  /** A result that is stored in full: both counters are numbers and the login time reads. */
  predicate Storable(r: Reading, readLogin: string -> Option<Instant>) {
    UserOf(r).Some? && readLogin(r.lastLoginDatetime).Some?
  }

  /** The id the user named `name` has, or gets when it is created. */
  function UserIdFor(rows: seq<Stored<User>>, nextId: nat, name: string): nat {
    match KeyIndex(rows, UserName, name)
    case Some(i) => rows[i].id
    case None => nextId
  }

  /** A last-login record before the session stamps its created_at. */
  datatype Login = Login(userId: nat, at: Instant, ip: string)

  /** The user table, its counter and the records added, after some results; `halted` once one raised. */
  datatype Outcome = Outcome(users: seq<Stored<User>>, nextId: nat, logins: seq<Login>, halted: bool)

  /**
   * One result: int() of the counters raises before anything is written; otherwise
   * the user is created or has its counters overwritten, and then the login time is
   * read, which raises with the user already written.
   */
  function Step(o: Outcome, r: Reading, readLogin: string -> Option<Instant>): (next: Outcome)
    ensures o.halted ==> next == o
    ensures !next.halted <==> !o.halted && Storable(r, readLogin)
  {
    if o.halted then o
    else match UserOf(r)
      case None => o.(halted := true)
      case Some(u) =>
        var (us, n) := Upsert(o.users, o.nextId, u, UserName, Replace);
        match readLogin(r.lastLoginDatetime)
        case None => Outcome(us, n, o.logins, true)
        case Some(t) => Outcome(us, n, o.logins + [Login(UserIdFor(o.users, o.nextId, u.username), t, r.lastLoginIp)], false)
  }

  /** The loop of _output_database over the results, from the user table `rows`. */
  function Outcomes(rows: seq<Stored<User>>, nextId: nat, rs: seq<Reading>, readLogin: string -> Option<Instant>): (o: Outcome)
    ensures |rows| <= |o.users| <= |rows| + |rs| && o.nextId == nextId + |o.users| - |rows|
  {
    if rs == [] then Outcome(rows, nextId, [], false)
    else Step(Outcomes(rows, nextId, rs[..|rs| - 1], readLogin), rs[|rs| - 1], readLogin)
  }

  /** The users of the first `n` results. */
  function UsersOf(rs: seq<Reading>, n: nat): (us: seq<User>)
    requires n <= |rs| && forall k | 0 <= k < n :: UserOf(rs[k]).Some?
    ensures |us| == n && forall k | 0 <= k < n :: us[k] == UserOf(rs[k]).value
  {
    seq(n, k requires 0 <= k < n => UserOf(rs[k]).value)
  }

  /** How many results reached the user table: those with a record, and the one whose login time raised. */
  function Touched(o: Outcome, rs: seq<Reading>): nat {
    if o.halted && |o.logins| < |rs| && UserOf(rs[|o.logins|]).Some? then |o.logins| + 1 else |o.logins|
  }

  // ---------------------------------------------------------------- what the loop promises

  /**
   * The loop stops at the first result whose counters are not numbers or whose login
   * time does not read; every result before it left exactly one record.
   */
  lemma {:induction false} OutcomesStop(rows: seq<Stored<User>>, nextId: nat, rs: seq<Reading>, readLogin: string -> Option<Instant>)
    ensures |Outcomes(rows, nextId, rs, readLogin).logins| <= |rs|
    ensures forall k | 0 <= k < |Outcomes(rows, nextId, rs, readLogin).logins| :: Storable(rs[k], readLogin)
    ensures Outcomes(rows, nextId, rs, readLogin).halted ==>
      |Outcomes(rows, nextId, rs, readLogin).logins| < |rs| && !Storable(rs[|Outcomes(rows, nextId, rs, readLogin).logins|], readLogin)
    ensures !Outcomes(rows, nextId, rs, readLogin).halted ==> |Outcomes(rows, nextId, rs, readLogin).logins| == |rs|
  {
    if rs != [] {
      var init := rs[..|rs| - 1];
      OutcomesStop(rows, nextId, init, readLogin);
      var o := Outcomes(rows, nextId, init, readLogin);
      assert Outcomes(rows, nextId, rs, readLogin) == Step(o, rs[|rs| - 1], readLogin);
      assert forall k | 0 <= k < |init| :: init[k] == rs[k];
    }
  }

  /** So the loop raises exactly when some result cannot be stored. */
  lemma OutcomesHalt(rows: seq<Stored<User>>, nextId: nat, rs: seq<Reading>, readLogin: string -> Option<Instant>)
    ensures Outcomes(rows, nextId, rs, readLogin).halted <==> exists k | 0 <= k < |rs| :: !Storable(rs[k], readLogin)
  {
    OutcomesStop(rows, nextId, rs, readLogin);
  }

  /** How far a loop over `n` results got: one record per result, up to the one that raised. */
  predicate Consumed(o: Outcome, n: nat) {
    && |o.logins| <= n
    && (o.halted ==> |o.logins| < n)
    && (!o.halted ==> |o.logins| == n)
  }

  lemma OutcomesConsumed(rows: seq<Stored<User>>, nextId: nat, rs: seq<Reading>, readLogin: string -> Option<Instant>)
    ensures Consumed(Outcomes(rows, nextId, rs, readLogin), |rs|)
  {
    OutcomesStop(rows, nextId, rs, readLogin);
  }

  /** The k-th record carries the k-th result's login time, as read, and its address. */
  lemma {:induction false} OutcomesLogins(rows: seq<Stored<User>>, nextId: nat, rs: seq<Reading>, readLogin: string -> Option<Instant>)
    ensures |Outcomes(rows, nextId, rs, readLogin).logins| <= |rs|
    ensures forall k | 0 <= k < |Outcomes(rows, nextId, rs, readLogin).logins| ::
      && readLogin(rs[k].lastLoginDatetime).Some?
      && Outcomes(rows, nextId, rs, readLogin).logins[k].at == readLogin(rs[k].lastLoginDatetime).value
      && Outcomes(rows, nextId, rs, readLogin).logins[k].ip == rs[k].lastLoginIp
  {
    if rs != [] {
      var init := rs[..|rs| - 1];
      OutcomesLogins(rows, nextId, init, readLogin);
      OutcomesStop(rows, nextId, init, readLogin);
      var o := Outcomes(rows, nextId, init, readLogin);
      assert Outcomes(rows, nextId, rs, readLogin) == Step(o, rs[|rs| - 1], readLogin);
      assert forall k | 0 <= k < |init| :: init[k] == rs[k];
    }
  }
  /**
   * The user table after the loop: every result that reached it (those with a record
   * and the one whose login time raised) merged in order by username, creating the
   * user or overwriting the row's counters.
   */
  predicate UsersMerged(o: Outcome, rows: seq<Stored<User>>, nextId: nat, rs: seq<Reading>) {
    && Touched(o, rs) <= |rs|
    && (forall k | 0 <= k < Touched(o, rs) :: UserOf(rs[k]).Some?)
    && (o.users, o.nextId) == UpsertAll(rows, nextId, UsersOf(rs, Touched(o, rs)), UserName, Replace)
  }

  lemma UsersOfPrefix(rs: seq<Reading>, init: seq<Reading>, n: nat)
    requires n <= |init| <= |rs| && init == rs[..|init|] && forall k | 0 <= k < n :: UserOf(rs[k]).Some?
    ensures UsersOf(rs, n) == UsersOf(init, n)
  {
  }

  /** A result whose counters are numbers upserts its user, and leaves one record or raises at the login time. */
  lemma StepUpserts(o: Outcome, last: Reading, readLogin: string -> Option<Instant>)
    requires !o.halted && UserOf(last).Some?
    ensures var o2 := Step(o, last, readLogin);
      && (o2.users, o2.nextId) == Upsert(o.users, o.nextId, UserOf(last).value, UserName, Replace)
      && (o2.halted ==> o2.logins == o.logins)
      && (!o2.halted ==> |o2.logins| == |o.logins| + 1)
  {
  }

  lemma UsersOfSnoc(init: seq<Reading>, last: Reading)
    requires (forall k | 0 <= k < |init| :: UserOf(init[k]).Some?) && UserOf(last).Some?
    ensures UsersOf(init + [last], |init| + 1) == UsersOf(init, |init|) + [UserOf(last).value]
  {
    var rs := init + [last];
    assert forall k | 0 <= k < |init| :: rs[k] == init[k];
  }

  /** A result whose counters are numbers merges its user, whether or not its login time reads. */
  lemma UsersMergedUpsert(o: Outcome, rows: seq<Stored<User>>, nextId: nat, init: seq<Reading>, last: Reading,
                          readLogin: string -> Option<Instant>)
    requires UsersMerged(o, rows, nextId, init) && !o.halted && |o.logins| == |init| && UserOf(last).Some?
    ensures UsersMerged(Step(o, last, readLogin), rows, nextId, init + [last])
  {
    var rs := init + [last];
    var o2 := Step(o, last, readLogin);
    var u := UserOf(last).value;
    StepUpserts(o, last, readLogin);
    UsersOfSnoc(init, last);
    assert Touched(o, init) == |init|;
    var prev := UsersOf(init, |init|);
    assert (prev + [u])[..|prev|] == prev;
    assert UpsertAll(rows, nextId, prev + [u], UserName, Replace) == Upsert(o.users, o.nextId, u, UserName, Replace);
    assert rs[|init|] == last;
    assert Touched(o2, rs) == |init| + 1;
    assert forall k | 0 <= k < |init| :: rs[k] == init[k];
  }

  /** One more result keeps the user table merged. */
  lemma UsersMergedStep(o: Outcome, rows: seq<Stored<User>>, nextId: nat, rs: seq<Reading>,
                        readLogin: string -> Option<Instant>)
    requires rs != [] && UsersMerged(o, rows, nextId, rs[..|rs| - 1]) && Consumed(o, |rs| - 1)
    ensures UsersMerged(Step(o, rs[|rs| - 1], readLogin), rows, nextId, rs)
  {
    var init, last := rs[..|rs| - 1], rs[|rs| - 1];
    assert init + [last] == rs;
    var o2 := Step(o, last, readLogin);
    var t := Touched(o, init);
    assert forall k | 0 <= k < |init| :: rs[k] == init[k];
    assert forall k | 0 <= k < t :: UserOf(rs[k]).Some?;
    UsersOfPrefix(rs, init, t);
    if !o.halted && UserOf(last).Some? {
      UsersMergedUpsert(o, rows, nextId, init, last, readLogin);
    } else if o.halted {
      assert o2 == o;
      assert Touched(o2, rs) == t;
    } else {
      assert o2 == o.(halted := true);
      assert Touched(o2, rs) == t;
    }
  }

  lemma {:induction false} OutcomesUsers(rows: seq<Stored<User>>, nextId: nat, rs: seq<Reading>, readLogin: string -> Option<Instant>)
    ensures UsersMerged(Outcomes(rows, nextId, rs, readLogin), rows, nextId, rs)
  {
    if rs != [] {
      var init := rs[..|rs| - 1];
      OutcomesUsers(rows, nextId, init, readLogin);
      OutcomesConsumed(rows, nextId, init, readLogin);
      UsersMergedStep(Outcomes(rows, nextId, init, readLogin), rows, nextId, rs, readLogin);
    }
  }

  /**
   * Created or overwritten: with usernames unique, the row named by a result that
   * reached the table holds that result's counters, unless a later such result names
   * the same user; a user no such result names keeps its row.
   */
  predicate CountersWritten(o: Outcome, rows: seq<Stored<User>>, rs: seq<Reading>) {
    && Touched(o, rs) <= |rs| && |rows| <= |o.users|
    && (forall k | 0 <= k < Touched(o, rs) :: UserOf(rs[k]).Some?)
    && LatestWritten(o.users, rs, Touched(o, rs))
    && OthersKept(o.users, rows, rs, Touched(o, rs))
  }

  /** The row named by each of the first `t` results holds its counters, unless a later one names the same user. */
  predicate LatestWritten(users: seq<Stored<User>>, rs: seq<Reading>, t: nat)
    requires t <= |rs| && forall k | 0 <= k < t :: UserOf(rs[k]).Some?
  {
    forall k | 0 <= k < t && (forall j | k < j < t :: rs[j].username != rs[k].username) ::
      KeyIndex(users, UserName, rs[k].username).Some?
      && users[KeyIndex(users, UserName, rs[k].username).value].val == UserOf(rs[k]).value
  }

  /** A row none of the first `t` results names is unchanged. */
  predicate OthersKept(users: seq<Stored<User>>, rows: seq<Stored<User>>, rs: seq<Reading>, t: nat)
    requires t <= |rs| && |rows| <= |users|
  {
    forall i | 0 <= i < |rows| && (forall k | 0 <= k < t :: rs[k].username != rows[i].val.username) ::
      users[i] == rows[i]
  }

  lemma MergedLatest(rows: seq<Stored<User>>, nextId: nat, rs: seq<Reading>, t: nat)
    requires KeysUnique(rows, UserName) && t <= |rs| && forall k | 0 <= k < t :: UserOf(rs[k]).Some?
    ensures LatestWritten(UpsertAll(rows, nextId, UsersOf(rs, t), UserName, Replace).0, rs, t)
  {
    var objs := UsersOf(rs, t);
    UpsertAllLatest(rows, nextId, objs, UserName);
    LatestOfObjects(UpsertAll(rows, nextId, objs, UserName, Replace).0, rs, t, objs);
  }

  /** LatestWritten, from the same fact stated on the users of the results. */
  lemma LatestOfObjects(users: seq<Stored<User>>, rs: seq<Reading>, t: nat, objs: seq<User>)
    requires t <= |rs| && forall k | 0 <= k < t :: UserOf(rs[k]).Some?
    requires |objs| == t && forall k | 0 <= k < t :: objs[k] == UserOf(rs[k]).value
    requires forall k | 0 <= k < |objs| && (forall j | k < j < |objs| :: UserName(objs[j]) != UserName(objs[k])) ::
      KeyIndex(users, UserName, UserName(objs[k])).Some?
      && users[KeyIndex(users, UserName, UserName(objs[k])).value].val == objs[k]
    ensures LatestWritten(users, rs, t)
  {
    forall k | 0 <= k < t && (forall j | k < j < t :: rs[j].username != rs[k].username)
      ensures KeyIndex(users, UserName, rs[k].username).Some?
      ensures users[KeyIndex(users, UserName, rs[k].username).value].val == UserOf(rs[k]).value
    {
      forall j | k < j < |objs| ensures UserName(objs[j]) != UserName(objs[k]) {
        assert objs[j].username == rs[j].username;
      }
      assert UserName(objs[k]) == rs[k].username;
    }
  }

  lemma MergedKept(rows: seq<Stored<User>>, nextId: nat, rs: seq<Reading>, t: nat)
    requires IdsBelow(rows, nextId) && t <= |rs| && forall k | 0 <= k < t :: UserOf(rs[k]).Some?
    ensures |rows| <= |UpsertAll(rows, nextId, UsersOf(rs, t), UserName, Replace).0|
    ensures OthersKept(UpsertAll(rows, nextId, UsersOf(rs, t), UserName, Replace).0, rows, rs, t)
  {
    var objs := UsersOf(rs, t);
    UpsertAllKeepsOthers(rows, nextId, objs, UserName, Replace);
    forall i | 0 <= i < |rows| && (forall k | 0 <= k < t :: rs[k].username != rows[i].val.username)
      ensures forall u | u in objs :: UserName(u) != UserName(rows[i].val)
    {
      forall u | u in objs ensures UserName(u) != UserName(rows[i].val) {
        var k :| 0 <= k < t && objs[k] == u;
      }
    }
  }

  lemma MergedCounters(o: Outcome, rows: seq<Stored<User>>, nextId: nat, rs: seq<Reading>)
    requires KeysUnique(rows, UserName) && IdsBelow(rows, nextId) && UsersMerged(o, rows, nextId, rs)
    ensures CountersWritten(o, rows, rs)
  {
    var t := Touched(o, rs);
    MergedLatest(rows, nextId, rs, t);
    MergedKept(rows, nextId, rs, t);
  }

  lemma OutcomesCounters(rows: seq<Stored<User>>, nextId: nat, rs: seq<Reading>, readLogin: string -> Option<Instant>)
    requires KeysUnique(rows, UserName) && IdsBelow(rows, nextId)
    ensures CountersWritten(Outcomes(rows, nextId, rs, readLogin), rows, rs)
  {
    OutcomesUsers(rows, nextId, rs, readLogin);
    MergedCounters(Outcomes(rows, nextId, rs, readLogin), rows, nextId, rs);
  }

  /**
   * Every record added points at the user its result names: the row that username
   * has in the user table, which stays unique.
   */
  predicate LoginsOwned(o: Outcome, rs: seq<Reading>) {
    && |o.logins| <= |rs| && KeysUnique(o.users, UserName)
    && forall k | 0 <= k < |o.logins| ::
         KeyIndex(o.users, UserName, rs[k].username).Some?
         && o.users[KeyIndex(o.users, UserName, rs[k].username).value].id == o.logins[k].userId
  }

  /** Merging a user keeps every row's id and key, so every earlier record still points at its user. */
  lemma LoginsOwnedUpsert(o: Outcome, rs: seq<Reading>, u: User)
    requires LoginsOwned(o, rs)
    ensures var (us, n) := Upsert(o.users, o.nextId, u, UserName, Replace);
      && KeysUnique(us, UserName)
      && KeyIndex(us, UserName, u.username).Some?
      && us[KeyIndex(us, UserName, u.username).value].id == UserIdFor(o.users, o.nextId, u.username)
      && LoginsOwned(Outcome(us, n, o.logins, o.halted), rs)
  {
    var (us, n) := Upsert(o.users, o.nextId, u, UserName, Replace);
    assert KeepsKey(UserName, Replace);
    UpsertStep(o.users, o.nextId, u, UserName, Replace);
    assert forall i | 0 <= i < |o.users| :: us[i].id == o.users[i].id;
    match KeyIndex(o.users, UserName, u.username) {
      case Some(i) =>
        KeyIndexOfRow(us, UserName, i);
      case None =>
        KeyIndexOfRow(us, UserName, |o.users|);
    }
    forall k | 0 <= k < |o.logins|
      ensures KeyIndex(us, UserName, rs[k].username).Some?
      ensures us[KeyIndex(us, UserName, rs[k].username).value].id == o.logins[k].userId
    {
      var p := KeyIndex(o.users, UserName, rs[k].username).value;
      KeyIndexOfRow(us, UserName, p);
    }
  }

  lemma LoginsOwnedStep(o: Outcome, init: seq<Reading>, last: Reading, readLogin: string -> Option<Instant>)
    requires LoginsOwned(o, init) && (!o.halted ==> |o.logins| == |init|)
    ensures LoginsOwned(Step(o, last, readLogin), init + [last])
  {
    var rs := init + [last];
    assert forall k | 0 <= k < |init| :: rs[k] == init[k];
    if !o.halted && UserOf(last).Some? {
      LoginsOwnedUpsert(o, init, UserOf(last).value);
    }
  }

  lemma {:induction false} OutcomesOwned(rows: seq<Stored<User>>, nextId: nat, rs: seq<Reading>, readLogin: string -> Option<Instant>)
    requires KeysUnique(rows, UserName)
    ensures LoginsOwned(Outcomes(rows, nextId, rs, readLogin), rs)
  {
    if rs != [] {
      var init := rs[..|rs| - 1];
      OutcomesOwned(rows, nextId, init, readLogin);
      OutcomesStop(rows, nextId, init, readLogin);
      var o := Outcomes(rows, nextId, init, readLogin);
      LoginsOwnedStep(o, init, rs[|rs| - 1], readLogin);
      assert init + [rs[|rs| - 1]] == rs;
      assert Outcomes(rows, nextId, rs, readLogin) == Step(o, rs[|rs| - 1], readLogin);
    }
  }

  /** Once a result raised, or at the end, the rest of the results change nothing. */
  lemma {:induction false} OutcomesHalted(rows: seq<Stored<User>>, nextId: nat, rs: seq<Reading>, i: nat,
                                          readLogin: string -> Option<Instant>)
    requires i <= |rs| && (i == |rs| || Outcomes(rows, nextId, rs[..i], readLogin).halted)
    ensures Outcomes(rows, nextId, rs, readLogin) == Outcomes(rows, nextId, rs[..i], readLogin)
  {
    if i < |rs| {
      var init := rs[..|rs| - 1];
      assert init[..i] == rs[..i];
      OutcomesHalted(rows, nextId, init, i, readLogin);
    } else {
      assert rs[..i] == rs;
    }
  }

  // ---------------------------------------------------------------- the crawler

  /**
   * The last-login table after the records `logins` were added from the counter
   * `nextId` on: the earlier rows as they were, then one row per record, in order,
   * each stamped with a created_at read from the clock between t0 and t1, never
   * earlier than the one before.
   */
  predicate Logged(before: seq<Stored<UserLastRecord>>, after: seq<Stored<UserLastRecord>>, nextId: nat,
                   logins: seq<Login>, t0: Instant, t1: Instant)
  {
    && t0 <= t1 && |after| == |before| + |logins| && after[..|before|] == before
    && forall k | 0 <= k < |logins| ::
         && after[|before| + k] == Stored(nextId + k, UserLastRecord(logins[k].userId, logins[k].at, logins[k].ip,
                                                                     after[|before| + k].val.createdAt))
         && t0 <= after[|before| + k].val.createdAt <= t1
         && (k > 0 ==> after[|before| + k - 1].val.createdAt <= after[|before| + k].val.createdAt)
  }

  lemma LoggedSnoc(before: seq<Stored<UserLastRecord>>, after: seq<Stored<UserLastRecord>>, nextId: nat,
                   logins: seq<Login>, t0: Instant, t1: Instant, login: Login, t: Instant)
    requires Logged(before, after, nextId, logins, t0, t1) && t1 <= t
    ensures Logged(before, after + [Stored(nextId + |logins|, UserLastRecord(login.userId, login.at, login.ip, t))],
                   nextId, logins + [login], t0, t)
  {
    var after' := after + [Stored(nextId + |logins|, UserLastRecord(login.userId, login.at, login.ip, t))];
    var logins' := logins + [login];
    assert after'[..|before|] == after[..|before|];
    assert forall j | 0 <= j < |after| :: after'[j] == after[j];
    forall k | 0 <= k < |logins'|
      ensures after'[|before| + k] == Stored(nextId + k, UserLastRecord(logins'[k].userId, logins'[k].at, logins'[k].ip,
                                                                       after'[|before| + k].val.createdAt))
      ensures t0 <= after'[|before| + k].val.createdAt <= t
      ensures k > 0 ==> after'[|before| + k - 1].val.createdAt <= after'[|before| + k].val.createdAt
    {
      if k < |logins| {
        assert logins'[k] == logins[k];
      } else if k > 0 {
        var j := k - 1;
        assert after[|before| + j].val.userId == logins[j].userId;
        assert after[|before| + j].val.createdAt <= t1;
        assert after'[|before| + k - 1] == after[|before| + j];
      }
    }
  }

  /** get_or_create and first() look rows up by username the same way KeyIndex does. */
  lemma NamedIsKey(rows: seq<Stored<User>>, name: string)
    ensures FirstMatch(rows, ArticleSync.UserNamed(name)) == KeyIndex(rows, UserName, name)
  {
    var a := FirstMatch(rows, ArticleSync.UserNamed(name));
    var b := KeyIndex(rows, UserName, name);
    if a.Some? && b.Some? {
      assert !(a.value < b.value) && !(b.value < a.value);
    }
  }

  class UserCrawler {
    const users: Table<User>
    const lastRecords: Table<UserLastRecord>
    const time: Clock
    const outputs: Outputs
    /** strptime with '%m/%d/%Y %H:%M:%S %a'; None when the string does not match. */
    const readLogin: string -> Option<Instant>

    /** The two tables as a fresh session sees them: valid, and every change so far committed. */
    ghost predicate Valid()
      reads users, lastRecords
    {
      && users.Valid() && lastRecords.Valid() && users as object != lastRecords
      && users.admits == AnyRow && lastRecords.admits == AnyRow
      && users.committed == users.rows && lastRecords.committed == lastRecords.rows
    }

    /** _init_config and _init_database: the output flags from the Output key, and a new session on the tables. */
    constructor (users: Table<User>, lastRecords: Table<UserLastRecord>, time: Clock, output: Option<string>,
                 readLogin: string -> Option<Instant>)
      requires users.Valid() && lastRecords.Valid() && users as object != lastRecords
      requires users.admits == AnyRow && lastRecords.admits == AnyRow
      requires users.committed == users.rows && lastRecords.committed == lastRecords.rows
      ensures Valid() && this.users == users && this.lastRecords == lastRecords && this.time == time
      ensures outputs == OutputsOf(output) && this.readLogin == readLogin
    {
      this.users := users;
      this.lastRecords := lastRecords;
      this.time := time;
      this.readLogin := readLogin;
      outputs := OutputsOf(output);
    }

    /**
     * get_or_create of the result's user, with both counters; an existing user has its
     * counters overwritten and committed. The user table is merged by username.
     */
    method CountUser(u: User) returns (id: nat)
      requires Valid()
      modifies users
      ensures Valid()
      ensures (users.rows, users.nextId) == Upsert(old(users.rows), old(users.nextId), u, UserName, Replace)
      ensures id == UserIdFor(old(users.rows), old(users.nextId), u.username)
    {
      NamedIsKey(users.rows, u.username);
      var found := FirstMatch(users.rows, ArticleSync.UserNamed(u.username));
      var ok, row, created := users.GetOrCreate(ArticleSync.UserNamed(u.username), u, true);
      if !created {
        var i := found.value;
        ok := users.Update(i, users.rows[i].val.(loginTimes := u.loginTimes, validArticleCount := u.validArticleCount));
        users.Commit();
      }
      id := row.id;
    }

    /** A UserLastRecord added and committed; its created_at is the clock's reading at the flush. */
    method AddRecord(login: Login)
      requires Valid()
      modifies lastRecords, time
      ensures Valid() && old(time.now) <= time.now
      ensures lastRecords.rows == old(lastRecords.rows)
        + [Stored(old(lastRecords.nextId), UserLastRecord(login.userId, login.at, login.ip, time.now))]
      ensures lastRecords.nextId == old(lastRecords.nextId) + 1
    {
      var t := time.Read();
      var ok, row := lastRecords.Create(UserLastRecord(login.userId, login.at, login.ip, t), true);
    }

    /** One pass of the loop of _output_database: `halted` when the result raised. */
    method StoreOne(r: Reading, ghost o: Outcome, ghost before: seq<Stored<UserLastRecord>>, ghost next0: nat, ghost t0: Instant)
      returns (halted: bool)
      requires Valid() && !o.halted && users.rows == o.users && users.nextId == o.nextId
      requires Logged(before, lastRecords.rows, next0, o.logins, t0, time.now) && lastRecords.nextId == next0 + |o.logins|
      modifies users, lastRecords, time
      ensures Valid()
      ensures users.rows == Step(o, r, readLogin).users && users.nextId == Step(o, r, readLogin).nextId
      ensures halted == Step(o, r, readLogin).halted
      ensures Logged(before, lastRecords.rows, next0, Step(o, r, readLogin).logins, t0, time.now)
      ensures lastRecords.nextId == next0 + |Step(o, r, readLogin).logins|
    {
      var u := UserOf(r);
      if u.None? {
        return true;
      }
      var id := CountUser(u.value);
      var at := readLogin(r.lastLoginDatetime);
      if at.None? {
        return true;
      }
      var login := Login(id, at.value, r.lastLoginIp);
      AddRecord(login);
      LoggedSnoc(before, old(lastRecords.rows), next0, o.logins, t0, old(time.now), login, time.now);
      halted := false;
    }

    /**
     * _output_database: the results in order until one raises, the exception leaving
     * go with everything before it committed.
     */
    method OutputDatabase(result: seq<Reading>) returns (raised: bool)
      requires Valid()
      modifies users, lastRecords, time
      ensures Valid()
      ensures users.rows == Outcomes(old(users.rows), old(users.nextId), result, readLogin).users
      ensures users.nextId == Outcomes(old(users.rows), old(users.nextId), result, readLogin).nextId
      ensures raised == Outcomes(old(users.rows), old(users.nextId), result, readLogin).halted
      ensures Logged(old(lastRecords.rows), lastRecords.rows, old(lastRecords.nextId),
                     Outcomes(old(users.rows), old(users.nextId), result, readLogin).logins, old(time.now), time.now)
    {
      ghost var rows0, next0 := users.rows, users.nextId;
      ghost var before, recordNext0, t0 := lastRecords.rows, lastRecords.nextId, time.now;
      ghost var o := Outcome(rows0, next0, [], false);
      raised := false;
      var i := 0;
      assert before[..|before|] == before;
      while i < |result| && !raised
        invariant 0 <= i <= |result| && Valid()
        invariant o == Outcomes(rows0, next0, result[..i], readLogin) && raised == o.halted
        invariant users.rows == o.users && users.nextId == o.nextId
        invariant Logged(before, lastRecords.rows, recordNext0, o.logins, t0, time.now)
        invariant lastRecords.nextId == recordNext0 + |o.logins|
      {
        raised := StoreOne(result[i], o, before, recordNext0, t0);
        assert result[..i + 1][..i] == result[..i];
        o := Step(o, result[i], readLogin);
        i := i + 1;
      }
      OutcomesHalted(rows0, next0, result, i, readLogin);
    }

    /**
     * go after the login: the ids of --id queried in order, then _output. When a screen
     * does not match, go raises before anything is stored; otherwise the results are
     * stored when the output mode includes the database (the json file is not modelled).
     */
    method Go(id: Option<string>, screen: string -> Option<Groups>) returns (result: seq<Reading>, raised: bool)
      requires Valid()
      modifies users, lastRecords, time
      ensures Valid()
      ensures Unmatched(IdList(id), screen) ==> raised && users.rows == old(users.rows) && lastRecords.rows == old(lastRecords.rows)
      ensures !Unmatched(IdList(id), screen) ==>
        |result| == |IdList(id)| && forall k | 0 <= k < |result| :: result[k] == ReadingOf(IdList(id)[k], screen(IdList(id)[k]).value)
      ensures !Unmatched(IdList(id), screen) && !outputs.database ==>
        !raised && users.rows == old(users.rows) && lastRecords.rows == old(lastRecords.rows)
      ensures !Unmatched(IdList(id), screen) && outputs.database ==>
        && users.rows == Outcomes(old(users.rows), old(users.nextId), result, readLogin).users
        && raised == Outcomes(old(users.rows), old(users.nextId), result, readLogin).halted
        && Logged(old(lastRecords.rows), lastRecords.rows, old(lastRecords.nextId),
                  Outcomes(old(users.rows), old(users.nextId), result, readLogin).logins, old(time.now), time.now)
    {
      var ids := IdList(id);
      result, raised := Query(ids, screen);
      if !raised && outputs.database {
        raised := OutputDatabase(result);
      }
    }
  }
}
