/**
 * The database gateway of models/base.py (PttDatabase): one ORM table per
 * model, reached through a session. A table holds the rows the session sees
 * (`rows`, flushed or pending) and the rows of the last commit (`committed`).
 * A flush that violates a NOT NULL constraint fails, and the transaction is
 * rolled back to the last commit. Every row has a surrogate id drawn from an
 * autoincrement counter.
 */
module Gateway {
  import opened Wrappers

  /** A persisted row: its autoincrement id and its column values. */
  datatype Stored<R> = Stored(id: nat, val: R)

  /** Ids strictly increase in insertion order, so no two rows share one. */
  predicate IdsIncreasing<R>(rows: seq<Stored<R>>) {
    forall i, j | 0 <= i < j < |rows| :: rows[i].id < rows[j].id
  }

  /** Every row was given an id below the counter. */
  predicate IdsBelow<R>(rows: seq<Stored<R>>, nextId: nat) {
    forall i | 0 <= i < |rows| :: rows[i].id < nextId
  }

  /** Every row satisfies the table's NOT NULL constraints. */
  predicate AllAdmitted<R>(rows: seq<Stored<R>>, admits: R -> bool) {
    forall i | 0 <= i < |rows| :: admits(rows[i].val)
  }

  predicate Conforms<R>(rows: seq<Stored<R>>, nextId: nat, admits: R -> bool) {
    IdsIncreasing(rows) && IdsBelow(rows, nextId) && AllAdmitted(rows, admits)
  }

  /** Position of the first row meeting `cond`, as query(...).filter_by(...).first() returns it. */
  function FirstMatch<R>(rows: seq<Stored<R>>, cond: R -> bool): (r: Option<nat>)
    ensures r.Some? ==> r.value < |rows| && cond(rows[r.value].val)
    ensures r.Some? ==> forall j | 0 <= j < r.value :: !cond(rows[j].val)
    ensures r.None? ==> forall j | 0 <= j < |rows| :: !cond(rows[j].val)
  {
    if rows == [] then None
    else if cond(rows[0].val) then Some(0)
    else match FirstMatch(rows[1..], cond)
      case None => None
      case Some(k) => Some(k + 1)
  }

  /** The rows meeting `cond`, in table order, as query(...).filter_by(...).all() returns them. */
  function Select<R>(rows: seq<Stored<R>>, cond: R -> bool): (r: seq<Stored<R>>)
    ensures |r| <= |rows|
    ensures forall i | 0 <= i < |r| :: r[i] in rows && cond(r[i].val)
    ensures forall i | 0 <= i < |rows| && cond(rows[i].val) :: rows[i] in r
    ensures IdsIncreasing(rows) ==> IdsIncreasing(r)
  {
    if rows == [] then []
    else
      var rest := Select(rows[1..], cond);
      assert forall i | 0 <= i < |rest| :: rest[i] in rows[1..];
      if cond(rows[0].val) then [rows[0]] + rest else rest
  }

  /** Fresh rows for `vals`, numbered from `start`. */
  function Numbered<R>(start: nat, vals: seq<R>): (r: seq<Stored<R>>)
    ensures |r| == |vals|
    ensures forall k | 0 <= k < |r| :: r[k] == Stored(start + k, vals[k])
  {
    seq(|vals|, k requires 0 <= k < |vals| => Stored(start + k, vals[k]))
  }

  // ---------------------------------------------------------------- merge (bulk_update)

  /** Position of the first row whose key is `k`. */
  function KeyIndex<R, K(==)>(rows: seq<Stored<R>>, key: R -> K, k: K): (r: Option<nat>)
    ensures r.Some? ==> r.value < |rows| && key(rows[r.value].val) == k
    ensures r.None? ==> forall j | 0 <= j < |rows| :: key(rows[j].val) != k
  {
    FirstMatch(rows, v => key(v) == k)
  }

  /**
   * session.merge(model(**o)): the row with o's primary key takes the fields o sets
   * (`merge(current, o)`); without such a row, o is added under the next id.
   */
  function Upsert<R, K(==)>(rows: seq<Stored<R>>, nextId: nat, o: R, key: R -> K, merge: (R, R) -> R): (r: (seq<Stored<R>>, nat))
  {
    match KeyIndex(rows, key, key(o))
    case Some(i) => (rows[i := Stored(rows[i].id, merge(rows[i].val, o))], nextId)
    case None => (rows + [Stored(nextId, o)], nextId + 1)
  }

  /** Merging every object of `objs` in order. */
  function UpsertAll<R, K(==)>(rows: seq<Stored<R>>, nextId: nat, objs: seq<R>, key: R -> K, merge: (R, R) -> R): (r: (seq<Stored<R>>, nat))
  {
    if objs == [] then (rows, nextId)
    else
      var prev := UpsertAll(rows, nextId, objs[..|objs| - 1], key, merge);
      Upsert(prev.0, prev.1, objs[|objs| - 1], key, merge)
  }

  /**
   * One merge adds a row exactly when no row has the object's key; the added row is the
   * object under the counter, which moves on by one.
   */
  lemma UpsertCounts<R, K>(rows: seq<Stored<R>>, nextId: nat, o: R, key: R -> K, merge: (R, R) -> R)
    ensures var (rs, n) := Upsert(rows, nextId, o, key, merge);
      && (|rs| == |rows| + 1 <==> KeyIndex(rows, key, key(o)).None?)
      && |rows| <= |rs| <= |rows| + 1 && n == nextId + |rs| - |rows|
      && (|rs| > |rows| ==> rs[|rows|] == Stored(nextId, o))
  {
  }

  /** A merge batch adds at most one row per object, and the counter moves on by the rows added. */
  lemma {:induction false} UpsertAllCounts<R, K>(rows: seq<Stored<R>>, nextId: nat, objs: seq<R>, key: R -> K, merge: (R, R) -> R)
    ensures var (rs, n) := UpsertAll(rows, nextId, objs, key, merge);
      |rows| <= |rs| <= |rows| + |objs| && n == nextId + |rs| - |rows|
  {
    if objs != [] {
      var init := objs[..|objs| - 1];
      UpsertAllCounts(rows, nextId, init, key, merge);
      var (ps, pn) := UpsertAll(rows, nextId, init, key, merge);
      UpsertCounts(ps, pn, objs[|objs| - 1], key, merge);
    }
  }

  /** The merge a primary key keeps: merging an object into the row with its key leaves the key alone. */
  ghost predicate KeepsKey<R(!new), K>(key: R -> K, merge: (R, R) -> R) {
    forall a, b | key(a) == key(b) :: key(merge(a, b)) == key(a)
  }

  /** No two rows share a primary key. */
  predicate KeysUnique<R, K(==)>(rows: seq<Stored<R>>, key: R -> K) {
    forall i, j | 0 <= i < j < |rows| :: key(rows[i].val) != key(rows[j].val)
  }

  /**
   * A merge batch never moves or renumbers an existing row, never touches a row whose
   * key no object carries, and only appends rows numbered from the counter.
   */
  lemma {:induction false} UpsertAllKeepsOthers<R, K>(rows: seq<Stored<R>>, nextId: nat, objs: seq<R>, key: R -> K, merge: (R, R) -> R)
    requires IdsBelow(rows, nextId)
    ensures var (rs, n) := UpsertAll(rows, nextId, objs, key, merge);
      |rows| <= |rs| && nextId <= n && n - nextId == |rs| - |rows|
      && (forall i | 0 <= i < |rows| :: rs[i].id == rows[i].id)
      && (forall i | |rows| <= i < |rs| :: nextId <= rs[i].id < n)
      && (forall i | 0 <= i < |rows| && (forall o | o in objs :: key(o) != key(rows[i].val)) :: rs[i] == rows[i])
  {
    if objs != [] {
      var init := objs[..|objs| - 1];
      var o := objs[|objs| - 1];
      UpsertAllKeepsOthers(rows, nextId, init, key, merge);
      var (ps, pn) := UpsertAll(rows, nextId, init, key, merge);
      var (rs, n) := UpsertAll(rows, nextId, objs, key, merge);
      assert (rs, n) == Upsert(ps, pn, o, key, merge);
      forall i | 0 <= i < |rows| && (forall o' | o' in objs :: key(o') != key(rows[i].val))
        ensures rs[i] == rows[i]
      {
        assert forall o' | o' in init :: o' in objs;
        assert o in objs;
        assert ps[i] == rows[i];
      }
    }
  }

  /** After a merge batch, every object's key has a row, and keys that were unique stay unique. */
  lemma {:induction false} UpsertAllCovers<R(!new), K>(rows: seq<Stored<R>>, nextId: nat, objs: seq<R>, key: R -> K, merge: (R, R) -> R)
    requires KeepsKey(key, merge) && KeysUnique(rows, key)
    ensures var (rs, n) := UpsertAll(rows, nextId, objs, key, merge);
      KeysUnique(rs, key)
      && (forall o | o in objs :: KeyIndex(rs, key, key(o)).Some?)
  {
    if objs != [] {
      var init := objs[..|objs| - 1];
      var o := objs[|objs| - 1];
      UpsertAllCovers(rows, nextId, init, key, merge);
      var (ps, pn) := UpsertAll(rows, nextId, init, key, merge);
      var (rs, n) := UpsertAll(rows, nextId, objs, key, merge);
      UpsertStep(ps, pn, o, key, merge);
      forall o' | o' in objs ensures KeyIndex(rs, key, key(o')).Some? {
        if o' != o {
          assert o' in init by {
            var k :| 0 <= k < |objs| && objs[k] == o';
            assert init[k] == o';
          }
          var j := KeyIndex(ps, key, key(o')).value;
          assert key(rs[j].val) == key(o');
        }
      }
    }
  }

  /** One merge keeps primary keys unique, finds o's key afterwards, and keeps every row's key. */
  lemma UpsertStep<R(!new), K>(rows: seq<Stored<R>>, nextId: nat, o: R, key: R -> K, merge: (R, R) -> R)
    requires KeepsKey(key, merge) && KeysUnique(rows, key)
    ensures var (rs, n) := Upsert(rows, nextId, o, key, merge);
      KeysUnique(rs, key) && KeyIndex(rs, key, key(o)).Some? && |rows| <= |rs|
      && (forall i | 0 <= i < |rows| :: key(rs[i].val) == key(rows[i].val))
  {
    var (rs, n) := Upsert(rows, nextId, o, key, merge);
    match KeyIndex(rows, key, key(o))
    case Some(i) =>
      assert key(rs[i].val) == key(merge(rows[i].val, o)) == key(rows[i].val);
      assert KeyIndex(rs, key, key(o)).Some? by {
        assert key(rs[i].val) == key(o);
      }
    case None =>
      assert key(rs[|rows|].val) == key(o);
  }

  /** A merge that overwrites every column with the object's: the object carries them all. */
  function Replace<R>(current: R, o: R): R { o }

  /** With unique keys, the first row carrying the key of row p is row p. */
  lemma KeyIndexOfRow<R, K>(rows: seq<Stored<R>>, key: R -> K, p: nat)
    requires KeysUnique(rows, key) && p < |rows|
    ensures KeyIndex(rows, key, key(rows[p].val)) == Some(p)
  {
  }

  /** A merge after which `view` of the row is `view` of the object: the columns it shows come from the object. */
  ghost predicate Overwrites<R(!new), V>(merge: (R, R) -> R, view: R -> V) {
    forall a, b :: view(merge(a, b)) == view(b)
  }

  /**
   * After a merge batch, the row of each object's key shows that object's columns,
   * unless a later object of the batch carries the same key.
   */
  lemma {:induction false} UpsertAllLatestView<R(!new), K, V>(rows: seq<Stored<R>>, nextId: nat, objs: seq<R>, key: R -> K,
                                                             merge: (R, R) -> R, view: R -> V)
    requires KeepsKey(key, merge) && Overwrites(merge, view) && KeysUnique(rows, key)
    ensures forall k | 0 <= k < |objs| && (forall j | k < j < |objs| :: key(objs[j]) != key(objs[k])) ::
      KeyIndex(UpsertAll(rows, nextId, objs, key, merge).0, key, key(objs[k])).Some?
      && view(UpsertAll(rows, nextId, objs, key, merge).0[KeyIndex(UpsertAll(rows, nextId, objs, key, merge).0, key, key(objs[k])).value].val)
         == view(objs[k])
  {
    if objs != [] {
      var init := objs[..|objs| - 1];
      var o := objs[|objs| - 1];
      UpsertAllLatestView(rows, nextId, init, key, merge, view);
      UpsertAllCovers(rows, nextId, init, key, merge);
      var (ps, pn) := UpsertAll(rows, nextId, init, key, merge);
      var (rs, n) := UpsertAll(rows, nextId, objs, key, merge);
      assert (rs, n) == Upsert(ps, pn, o, key, merge);
      UpsertStep(ps, pn, o, key, merge);
      forall k | 0 <= k < |objs| && (forall j | k < j < |objs| :: key(objs[j]) != key(objs[k]))
        ensures KeyIndex(rs, key, key(objs[k])).Some? && view(rs[KeyIndex(rs, key, key(objs[k])).value].val) == view(objs[k])
      {
        if k == |objs| - 1 {
          var p := if KeyIndex(ps, key, key(o)).Some? then KeyIndex(ps, key, key(o)).value else |ps|;
          assert view(rs[p].val) == view(o);
          KeyIndexOfRow(rs, key, p);
        } else {
          assert init[k] == objs[k];
          assert forall j | k < j < |init| :: init[j] == objs[j];
          var p := KeyIndex(ps, key, key(objs[k])).value;
          assert key(o) != key(objs[k]);
          assert rs[p] == ps[p];
          KeyIndexOfRow(rs, key, p);
        }
      }
    }
  }

  /**
   * After a batch merged with Replace, the row of each object's key holds that object,
   * unless a later object of the batch carries the same key.
   */
  lemma UpsertAllLatest<R(!new), K>(rows: seq<Stored<R>>, nextId: nat, objs: seq<R>, key: R -> K)
    requires KeysUnique(rows, key)
    ensures var (rs, n) := UpsertAll(rows, nextId, objs, key, Replace);
      forall k | 0 <= k < |objs| && (forall j | k < j < |objs| :: key(objs[j]) != key(objs[k])) ::
        KeyIndex(rs, key, key(objs[k])).Some? && rs[KeyIndex(rs, key, key(objs[k])).value].val == objs[k]
  {
    assert KeepsKey(key, Replace);
    assert Overwrites(Replace, (x: R) => x);
    UpsertAllLatestView(rows, nextId, objs, key, Replace, (x: R) => x);
  }

  /** Merging one batch after another is merging the two joined. */
  lemma {:induction false} UpsertAllAppend<R, K>(rows: seq<Stored<R>>, nextId: nat, a: seq<R>, b: seq<R>, key: R -> K, merge: (R, R) -> R)
    ensures UpsertAll(rows, nextId, a + b, key, merge)
         == UpsertAll(UpsertAll(rows, nextId, a, key, merge).0, UpsertAll(rows, nextId, a, key, merge).1, b, key, merge)
  {
    if b == [] {
      assert a + b == a;
    } else {
      var init := b[..|b| - 1];
      UpsertAllAppend(rows, nextId, a, init, key, merge);
      assert (a + b)[..|a + b| - 1] == a + init;
    }
  }

  // ---------------------------------------------------------------- the engine URL

  function LowerChar(c: char): char {
    if 'A' <= c <= 'Z' then (c as int + 32) as char else c
  }

  /** dbtype.lower() on the letters that matter here (ASCII). */
  function Lower(s: string): (r: string)
    ensures |r| == |s|
    ensures forall i | 0 <= i < |s| :: r[i] == LowerChar(s[i])
  {
    if s == [] then [] else [LowerChar(s[0])] + Lower(s[1..])
  }

  /** c is the lower-case letter l or its capital. */
  predicate SameLetter(c: char, l: char)
    requires 'a' <= l <= 'z'
  {
    c == l || c as int == l as int - 32
  }

  const SqliteKey := "sqlite"

  /**
   * PttDatabase.__init__: the type name is lower-cased and must be the one key of
   * DB_ENGINE; the engine URL is 'sqlite:///' followed by the database name.
   */
  function OpenEngine(dbtype: string, dbname: string): (r: Result<string, string>)
    ensures r.Success? <==> |dbtype| == 6 && forall i | 0 <= i < 6 :: SameLetter(dbtype[i], SqliteKey[i])
    ensures r.Success? ==> r.value == "sqlite:///" + dbname
    ensures r.Failure? ==> r.error == "DBType is not found in DB_ENGINE"
  {
    var key := Lower(dbtype);
    assert |dbtype| == 6 && key == SqliteKey ==> forall i | 0 <= i < 6 :: key[i] == SqliteKey[i];
    if key == SqliteKey then Success("sqlite:///" + dbname)
    else Failure("DBType is not found in DB_ENGINE")
  }

  // ---------------------------------------------------------------- the table

  class Table<R(==)> {
    /** The NOT NULL constraints of the model's declaration. */
    const admits: R -> bool
    /** Rows the session sees: committed, flushed or pending. */
    var rows: seq<Stored<R>>
    /** Rows as of the last commit. */
    var committed: seq<Stored<R>>
    /** The autoincrement counter. */
    var nextId: nat

    ghost predicate Valid()
      reads this
    {
      Conforms(rows, nextId, admits) && Conforms(committed, nextId, admits)
    }

    constructor (admits: R -> bool)
      ensures Valid() && this.admits == admits
      ensures rows == [] && committed == [] && nextId == 0
    {
      this.admits := admits;
      rows, committed, nextId := [], [], 0;
    }

    /** get: the first row meeting `cond`, or None. */
    function Get(cond: R -> bool): (r: Option<Stored<R>>)
      reads this
      ensures r.Some? ==> exists i | 0 <= i < |rows| ::
        rows[i] == r.value && cond(r.value.val) && forall j | 0 <= j < i :: !cond(rows[j].val)
      ensures r.None? <==> forall x | x in rows :: !cond(x.val)
    {
      match FirstMatch(rows, cond)
      case Some(i) => Some(rows[i])
      case None => None
    }

    /** get_list: every row meeting `cond`, in table order. */
    function GetList(cond: R -> bool): (r: seq<Stored<R>>)
      reads this
      ensures forall i | 0 <= i < |r| :: r[i] in rows && cond(r[i].val)
      ensures forall i | 0 <= i < |rows| && cond(rows[i].val) :: rows[i] in r
      ensures IdsIncreasing(rows) ==> IdsIncreasing(r)
    {
      Select(rows, cond)
    }

    /** session.commit(). */
    method Commit()
      requires Valid()
      modifies this
      ensures Valid() && committed == rows == old(rows) && nextId == old(nextId)
    {
      committed := rows;
    }

    /** session.rollback(), and what a failed flush does to the transaction. */
    method Rollback()
      requires Valid()
      modifies this
      ensures Valid() && rows == committed == old(committed) && nextId == old(nextId)
    {
      rows := committed;
    }

    /** Adds a row and flushes (or commits); a NOT NULL violation rolls back instead. */
    method Insert(values: R, autoCommit: bool) returns (ok: bool, row: Stored<R>)
      requires Valid()
      modifies this
      ensures Valid()
      ensures ok <==> admits(values)
      ensures ok ==> (row == Stored(old(nextId), values) && rows == old(rows) + [row]
        && nextId == old(nextId) + 1 && committed == (if autoCommit then rows else old(committed)))
      ensures !ok ==> rows == committed == old(committed) && nextId == old(nextId)
    {
      row := Stored(nextId, values);
      ok := admits(values);
      if ok {
        rows := rows + [row];
        nextId := nextId + 1;
        if autoCommit {
          committed := rows;
        }
      } else {
        rows := committed;
      }
    }

    /** get_or_create: the first row meeting `cond` if there is one, otherwise a new row of `values`. */
    method GetOrCreate(cond: R -> bool, values: R, autoCommit: bool) returns (ok: bool, row: Stored<R>, created: bool)
      requires Valid()
      modifies this
      ensures Valid()
      ensures created <==> old(Get(cond)).None?
      ensures !created ==> (ok && row == old(Get(cond)).value
        && rows == old(rows) && committed == old(committed) && nextId == old(nextId))
      ensures created ==> (ok <==> admits(values))
      ensures created && ok ==> (row == Stored(old(nextId), values) && rows == old(rows) + [row]
        && nextId == old(nextId) + 1 && committed == (if autoCommit then rows else old(committed)))
      ensures !ok ==> rows == committed == old(committed) && nextId == old(nextId)
    {
      var found := Get(cond);
      if found.Some? {
        ok, row, created := true, found.value, false;
      } else {
        created := true;
        ok, row := Insert(values, autoCommit);
      }
    }

    /** create: a new row of `values`. */
    method Create(values: R, autoCommit: bool) returns (ok: bool, row: Stored<R>)
      requires Valid()
      modifies this
      ensures Valid()
      ensures ok <==> admits(values)
      ensures ok ==> (row == Stored(old(nextId), values) && rows == old(rows) + [row]
        && nextId == old(nextId) + 1 && committed == (if autoCommit then rows else old(committed)))
      ensures !ok ==> rows == committed == old(committed) && nextId == old(nextId)
    {
      ok, row := Insert(values, autoCommit);
    }

    /** An attribute assignment on a loaded row, flushed with the session. */
    method Update(i: nat, values: R) returns (ok: bool)
      requires Valid() && i < |rows|
      modifies this
      ensures Valid()
      ensures ok <==> admits(values)
      ensures ok ==> rows == old(rows)[i := Stored(old(rows)[i].id, values)] && committed == old(committed)
      ensures !ok ==> rows == committed == old(committed)
      ensures nextId == old(nextId)
    {
      ok := admits(values);
      if ok {
        rows := rows[i := Stored(rows[i].id, values)];
      } else {
        rows := committed;
      }
    }

    /** delete: removes every row meeting `cond`. */
    method Delete(cond: R -> bool, autoCommit: bool)
      requires Valid()
      modifies this
      ensures Valid()
      ensures forall i | 0 <= i < |rows| :: rows[i] in old(rows) && !cond(rows[i].val)
      ensures forall i | 0 <= i < |old(rows)| && !cond(old(rows)[i].val) :: old(rows)[i] in rows
      ensures committed == (if autoCommit then rows else old(committed)) && nextId == old(nextId)
    {
      rows := Select(rows, v => !cond(v));
      if autoCommit {
        committed := rows;
      }
    }

    /** bulk_insert: appends all of `vals`; one NOT NULL violation fails the whole flush. */
    method BulkInsert(vals: seq<R>, autoCommit: bool) returns (ok: bool)
      requires Valid()
      modifies this
      ensures Valid()
      ensures ok <==> forall k | 0 <= k < |vals| :: admits(vals[k])
      ensures ok ==> (rows == old(rows) + Numbered(old(nextId), vals) && nextId == old(nextId) + |vals|
        && committed == (if autoCommit then rows else old(committed)))
      ensures !ok ==> rows == committed == old(committed) && nextId == old(nextId)
    {
      ok := forall k | 0 <= k < |vals| :: admits(vals[k]);
      if ok {
        rows := rows + Numbered(nextId, vals);
        nextId := nextId + |vals|;
        if autoCommit {
          committed := rows;
        }
      } else {
        rows := committed;
      }
    }

    /**
     * bulk_update: merges each object in turn by primary key `key`, then flushes
     * (or commits); the flush fails if a merged or added row breaks a NOT NULL constraint.
     */
    method BulkUpdate<K(==)>(objs: seq<R>, key: R -> K, merge: (R, R) -> R, autoCommit: bool) returns (ok: bool)
      requires Valid()
      modifies this
      ensures Valid()
      ensures var (rs, n) := UpsertAll(old(rows), old(nextId), objs, key, merge);
        (ok <==> forall i | 0 <= i < |rs| :: admits(rs[i].val))
        && (ok ==> rows == rs && nextId == n && committed == (if autoCommit then rows else old(committed)))
      ensures !ok ==> rows == committed == old(committed) && nextId == old(nextId)
    {
      var rs, n := rows, nextId;
      var i := 0;
      while i < |objs|
        invariant 0 <= i <= |objs|
        invariant (rs, n) == UpsertAll(rows, nextId, objs[..i], key, merge)
      {
        assert objs[..i + 1][..i] == objs[..i];
        var next := Upsert(rs, n, objs[i], key, merge);
        rs, n := next.0, next.1;
        i := i + 1;
      }
      assert objs[..|objs|] == objs;
      ok := forall j | 0 <= j < |rs| :: admits(rs[j].val);
      if ok {
        UpsertAllKeepsOthers(rows, nextId, objs, key, merge);
        UpsertAllIncreasing(rows, nextId, objs, key, merge);
        rows, nextId := rs, n;
        if autoCommit {
          committed := rows;
        }
      } else {
        rows := committed;
      }
    }
  }

  /** A merge batch keeps ids strictly increasing. */
  lemma UpsertAllIncreasing<R, K>(rows: seq<Stored<R>>, nextId: nat, objs: seq<R>, key: R -> K, merge: (R, R) -> R)
    requires IdsIncreasing(rows) && IdsBelow(rows, nextId)
    ensures var (rs, n) := UpsertAll(rows, nextId, objs, key, merge); IdsIncreasing(rs) && IdsBelow(rs, n)
  {
    UpsertAllKeepsOthers(rows, nextId, objs, key, merge);
    var (rs, n) := UpsertAll(rows, nextId, objs, key, merge);
    assert forall i | |rows| <= i < |rs| :: rs[i].id == nextId + (i - |rows|) by {
      UpsertAllNumbers(rows, nextId, objs, key, merge);
    }
  }

  /** Rows a merge batch appends are numbered consecutively from the counter. */
  lemma {:induction false} UpsertAllNumbers<R, K>(rows: seq<Stored<R>>, nextId: nat, objs: seq<R>, key: R -> K, merge: (R, R) -> R)
    ensures var (rs, n) := UpsertAll(rows, nextId, objs, key, merge);
      |rows| <= |rs| && n == nextId + (|rs| - |rows|)
      && forall i | |rows| <= i < |rs| :: rs[i].id == nextId + (i - |rows|)
  {
    if objs != [] {
      UpsertAllNumbers(rows, nextId, objs[..|objs| - 1], key, merge);
    }
  }
}
