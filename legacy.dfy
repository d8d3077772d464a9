/**
 * The older gateway of crawler/models.py. It offers the same operations as
 * models/base.py but commits after every write, creates the database folder
 * and the tables when it opens the engine, and declares the enrichment columns
 * of ip_asn NOT NULL.
 */
module Legacy {
  import opened Wrappers
  import opened Gateway
  import opened Records

  /** The legacy ip_asn declaration: every column but asn_raw is NOT NULL. */
  predicate LegacyIpAsnAdmits(a: IpAsn) {
    a.asn.Some? && a.asnDate.Some? && a.registry.Some? && a.cidr.Some?
    && a.countryCode.Some? && a.description.Some?
  }

  /**
   * The address-only row the crawlers insert is refused by the legacy schema and
   * accepted by the current one (models/asn.py declares those columns nullable).
   */
  lemma PlaceholderOnlyFitsCurrentSchema(ip: string)
    ensures !LegacyIpAsnAdmits(Placeholder(ip)) && AnyRow(Placeholder(ip))
  {
  }

  /** Index just past the last '/' of p, or 0. */
  function AfterLastSlash(p: string): (i: nat)
    ensures i <= |p|
    ensures i > 0 ==> p[i - 1] == '/'
    ensures forall k | i <= k < |p| :: p[k] != '/'
  {
    if p == [] then 0
    else if p[|p| - 1] == '/' then |p|
    else AfterLastSlash(p[..|p| - 1])
  }

  /** head.rstrip('/'). */
  function DropTrailingSlashes(h: string): (r: string)
    ensures |r| <= |h| && r == h[..|r|]
    ensures r == [] || r[|r| - 1] != '/'
    ensures forall k | |r| <= k < |h| :: h[k] == '/'
  {
    if h != [] && h[|h| - 1] == '/' then DropTrailingSlashes(h[..|h| - 1]) else h
  }

  /** os.path.dirname (POSIX): the part before the last '/', trailing slashes removed unless it is all slashes. */
  function Dirname(p: string): (r: string)
  {
    var head := p[..AfterLastSlash(p)];
    var stripped := DropTrailingSlashes(head);
    if head != [] && stripped == [] then head else stripped
  }

  /** The directory of 'folder/file' is 'folder'; a bare file name has none. */
  lemma {:induction false} DirnameOfPath(d: string, f: string)
    requires '/' !in f
    ensures d != [] && d[|d| - 1] != '/' ==> Dirname(d + "/" + f) == d
    ensures Dirname(f) == []
  {
    var p := d + "/" + f;
    AfterLastSlashOf(d + "/", f);
    assert p[..|d| + 1] == d + "/";
    if d != [] && d[|d| - 1] != '/' {
      assert (d + "/")[..|d|] == d;
    }
    AfterLastSlashOf([], f);
    assert [] + f == f;
  }

  lemma {:induction false} AfterLastSlashOf(pre: string, f: string)
    requires '/' !in f && (pre == [] || pre[|pre| - 1] == '/')
    ensures AfterLastSlash(pre + f) == |pre|
    decreases |f|
  {
    if f != [] {
      assert (pre + f)[..|pre + f| - 1] == pre + f[..|f| - 1];
      assert f[|f| - 1] in f;
      AfterLastSlashOf(pre, f[..|f| - 1]);
    } else {
      assert pre + f == pre;
    }
  }

  /** What the legacy constructor sets up: the engine URL and the folder it creates first, if any. */
  datatype Engine = Engine(url: string, makeFolder: Option<string>)

  /**
   * PttDatabase.__init__ of crawler/models.py: the same type check and URL as the
   * current gateway, and the database file's folder is created when it has one.
   */
  function OpenLegacy(dbtype: string, dbname: string): (r: Result<Engine, string>)
    ensures r.Success? <==> OpenEngine(dbtype, dbname).Success?
    ensures r.Success? ==> r.value.url == "sqlite:///" + dbname
    ensures r.Success? ==> (r.value.makeFolder.Some? <==> Dirname(dbname) != [])
    ensures r.Success? && r.value.makeFolder.Some? ==> r.value.makeFolder.value == Dirname(dbname)
    ensures r.Failure? ==> r.error == "DBType is not found in DB_ENGINE"
  {
    match OpenEngine(dbtype, dbname)
    case Failure(e) => Failure(e)
    case Success(url) =>
      var folder := Dirname(dbname);
      Success(Engine(url, if folder != [] then Some(folder) else None))
  }

  /** A table behind the legacy gateway: every write is committed at once. */
  class LegacyTable<R(==)> {
    const table: Table<R>

    ghost predicate Valid()
      reads this, table
    {
      table.Valid() && table.committed == table.rows
    }

    constructor (admits: R -> bool)
      ensures Valid() && fresh(table) && table.admits == admits && table.rows == []
    {
      table := new Table(admits);
    }

    /** get_or_create, always committing. */
    method GetOrCreate(cond: R -> bool, values: R) returns (ok: bool, row: Stored<R>, created: bool)
      requires Valid()
      modifies table
      ensures Valid()
      ensures created <==> old(table.Get(cond)).None?
      ensures !created ==> ok && row == old(table.Get(cond)).value && table.rows == old(table.rows)
      ensures created ==> (ok <==> table.admits(values))
      ensures created && ok ==> row == Stored(old(table.nextId), values) && table.rows == old(table.rows) + [row]
      ensures !ok ==> table.rows == old(table.rows)
    {
      ok, row, created := table.GetOrCreate(cond, values, true);
    }

    /** create, always committing. */
    method Create(values: R) returns (ok: bool, row: Stored<R>)
      requires Valid()
      modifies table
      ensures Valid()
      ensures ok <==> table.admits(values)
      ensures ok ==> row == Stored(old(table.nextId), values) && table.rows == old(table.rows) + [row]
      ensures !ok ==> table.rows == old(table.rows)
    {
      ok, row := table.Create(values, true);
    }

    /** get. */
    function Get(cond: R -> bool): (r: Option<Stored<R>>)
      reads this, table
      ensures r.Some? ==> r.value in table.rows && cond(r.value.val)
      ensures r.None? <==> forall x | x in table.rows :: !cond(x.val)
    {
      table.Get(cond)
    }

    /** delete, always committing. */
    method Delete(cond: R -> bool)
      requires Valid()
      modifies table
      ensures Valid()
      ensures forall i | 0 <= i < |table.rows| :: table.rows[i] in old(table.rows) && !cond(table.rows[i].val)
      ensures forall i | 0 <= i < |old(table.rows)| && !cond(old(table.rows)[i].val) :: old(table.rows)[i] in table.rows
    {
      table.Delete(cond, true);
    }

    /** bulk_insert, always committing. */
    method BulkInsert(vals: seq<R>) returns (ok: bool)
      requires Valid()
      modifies table
      ensures Valid()
      ensures ok <==> forall k | 0 <= k < |vals| :: table.admits(vals[k])
      ensures ok ==> table.rows == old(table.rows) + Numbered(old(table.nextId), vals)
      ensures !ok ==> table.rows == old(table.rows)
    {
      ok := table.BulkInsert(vals, true);
    }
  }
}
