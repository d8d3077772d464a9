/**
 * crawler/asn.py, PttIpAsnCrawler: looks up the autonomous system of every address,
 * taken from the --ip-list argument or from the stored ip_asn rows, and merges the
 * results into ip_asn by address, a hundred at a time as they come in and the rest
 * at the end.
 */
module AsnCrawler {
  import opened Wrappers
  import opened Text
  import opened Gateway
  import opened Records
  import opened Batches

  // ---------------------------------------------------------------- one address

  /** What the registry lookup (IPASN(Net(ip)).lookup()) reports, the date still as text. */
  datatype Lookup = Lookup(asn: Option<string>, asnDate: Option<string>, registry: Option<string>,
                           cidr: Option<string>, countryCode: Option<string>, description: Option<string>)

  /** The primary key of ip_asn. */
  function IpOf(a: IpAsn): string { a.ip }

  /**
   * session.merge(IpAsn(**result)) onto a stored row: every column the result sets
   * replaces the row's; asn_raw, which no result sets, stays as it was.
   */
  function Refresh(current: IpAsn, o: IpAsn): (r: IpAsn)
    ensures r.ip == o.ip && r.raw == current.raw
  {
    o.(raw := current.raw)
  }

  /** The columns a lookup result sets: all but asn_raw. */
  function Looked(a: IpAsn): IpAsn { a.(raw := None) }

  lemma RefreshOverwrites()
    ensures KeepsKey(IpOf, Refresh) && Overwrites(Refresh, Looked)
  {
  }

  /**
   * The result of one address: {'ip': ip} updated with the lookup, and asn_date read
   * with '%Y-%m-%d' (`readDate`). None when the lookup raises (`lookup` gives None),
   * or when asn_date is missing or does not read.
   */
  function ResultOf(ip: string, lookup: string -> Option<Lookup>, readDate: string -> Option<Instant>): (r: Option<IpAsn>)
    ensures r.Some? <==> lookup(ip).Some? && lookup(ip).value.asnDate.Some? && readDate(lookup(ip).value.asnDate.value).Some?
    ensures r.Some? ==> r.value.ip == ip && r.value.raw.None?
    ensures r.Some? ==> r.value.asnDate == readDate(lookup(ip).value.asnDate.value)
    ensures r.Some? ==> && r.value.asn == lookup(ip).value.asn && r.value.registry == lookup(ip).value.registry
                        && r.value.cidr == lookup(ip).value.cidr && r.value.countryCode == lookup(ip).value.countryCode
                        && r.value.description == lookup(ip).value.description
  {
    match lookup(ip)
    case None => None
    case Some(l) =>
      if l.asnDate.None? then None
      else
        match readDate(l.asnDate.value)
        case None => None
        case Some(d) => Some(IpAsn(ip, l.asn, Some(d), l.registry, l.cidr, l.countryCode, l.description, None))
  }

  // ---------------------------------------------------------------- the loop of go

  /** The results go gathers from `ips`, and whether an address raised, which ends go. */
  function Results(ips: seq<string>, lookup: string -> Option<Lookup>, readDate: string -> Option<Instant>): (r: (seq<IpAsn>, bool))
    ensures |r.0| <= |ips|
    ensures !r.1 ==> |r.0| == |ips|
  {
    if ips == [] then ([], false)
    else
      var (g, raised) := Results(ips[..|ips| - 1], lookup, readDate);
      if raised then (g, true)
      else match ResultOf(ips[|ips| - 1], lookup, readDate)
        case None => (g, true)
        case Some(r) => (g + [r], false)
  }

  /**
   * What _output_db is handed: each hundred results as they fill up and then, unless an
   * address raised, whatever is left, which may be nothing.
   */
  function Flushes(ips: seq<string>, lookup: string -> Option<Lookup>, readDate: string -> Option<Instant>): (r: seq<seq<IpAsn>>)
    ensures !Results(ips, lookup, readDate).1 ==> r != []
  {
    var (g, raised) := Results(ips, lookup, readDate);
    FullBatches(g, 100) + (if raised then [] else [Rest(g, 100)])
  }

  /**
   * One result per address, in the order of the addresses, up to the first address
   * that raises; with none raising, one for every address.
   */
  lemma {:induction false} ResultsMeaning(ips: seq<string>, lookup: string -> Option<Lookup>, readDate: string -> Option<Instant>)
    ensures |Results(ips, lookup, readDate).0| <= |ips|
    ensures forall k | 0 <= k < |Results(ips, lookup, readDate).0| ::
      ResultOf(ips[k], lookup, readDate) == Some(Results(ips, lookup, readDate).0[k])
    ensures Results(ips, lookup, readDate).1 ==>
      |Results(ips, lookup, readDate).0| < |ips| && ResultOf(ips[|Results(ips, lookup, readDate).0|], lookup, readDate).None?
    ensures !Results(ips, lookup, readDate).1 ==> |Results(ips, lookup, readDate).0| == |ips|
  {
    if ips != [] {
      var init := ips[..|ips| - 1];
      ResultsMeaning(init, lookup, readDate);
      assert forall k | 0 <= k < |init| :: init[k] == ips[k];
    }
  }

  /** So go raises exactly when some address does, and the k-th result is about the k-th address. */
  lemma ResultsRaise(ips: seq<string>, lookup: string -> Option<Lookup>, readDate: string -> Option<Instant>)
    ensures Results(ips, lookup, readDate).1 <==> exists k | 0 <= k < |ips| :: ResultOf(ips[k], lookup, readDate).None?
    ensures |Results(ips, lookup, readDate).0| <= |ips|
    ensures forall k | 0 <= k < |Results(ips, lookup, readDate).0| :: Results(ips, lookup, readDate).0[k].ip == ips[k]
  {
    ResultsMeaning(ips, lookup, readDate);
  }

  /**
   * Every batch handed over inside the loop holds exactly a hundred results. Without an
   * address raising, the last batch holds the fewer than a hundred left over, and the
   * batches joined are all the results; after a raise, the results since the last full
   * hundred are never handed over.
   */
  lemma FlushesShape(ips: seq<string>, lookup: string -> Option<Lookup>, readDate: string -> Option<Instant>)
    ensures Results(ips, lookup, readDate).1 ==>
      && (forall k | 0 <= k < |Flushes(ips, lookup, readDate)| :: |Flushes(ips, lookup, readDate)[k]| == 100)
      && Concat(Flushes(ips, lookup, readDate)) + Rest(Results(ips, lookup, readDate).0, 100) == Results(ips, lookup, readDate).0
    ensures !Results(ips, lookup, readDate).1 ==>
      && |Flushes(ips, lookup, readDate)| >= 1
      && (forall k | 0 <= k < |Flushes(ips, lookup, readDate)| - 1 :: |Flushes(ips, lookup, readDate)[k]| == 100)
      && |Flushes(ips, lookup, readDate)[|Flushes(ips, lookup, readDate)| - 1]| < 100
      && Concat(Flushes(ips, lookup, readDate)) == Results(ips, lookup, readDate).0
  {
    var (g, raised) := Results(ips, lookup, readDate);
    var full := FullBatches(g, 100);
    FullBatchesShape(g, 100);
    if !raised {
      ConcatSnoc(full, Rest(g, 100));
      assert Flushes(ips, lookup, readDate) == full + [Rest(g, 100)];
    } else {
      assert Flushes(ips, lookup, readDate) == full;
    }
  }

  // ---------------------------------------------------------------- what ip_asn holds afterwards

  /**
   * Upsert by address: with addresses unique, the row of each handed-over result's
   * address shows that result's columns, unless a later handed-over result has the
   * same address; a row whose address no handed-over result has is unchanged.
   */
  lemma StoredByIp(rows: seq<Stored<IpAsn>>, nextId: nat, objs: seq<IpAsn>)
    requires KeysUnique(rows, IpOf) && IdsBelow(rows, nextId)
    ensures |rows| <= |UpsertAll(rows, nextId, objs, IpOf, Refresh).0|
    ensures forall k | 0 <= k < |objs| && (forall j | k < j < |objs| :: objs[j].ip != objs[k].ip) ::
      KeyIndex(UpsertAll(rows, nextId, objs, IpOf, Refresh).0, IpOf, objs[k].ip).Some?
      && Looked(UpsertAll(rows, nextId, objs, IpOf, Refresh).0[KeyIndex(UpsertAll(rows, nextId, objs, IpOf, Refresh).0, IpOf, objs[k].ip).value].val)
         == Looked(objs[k])
    ensures forall i | 0 <= i < |rows| && (forall k | 0 <= k < |objs| :: objs[k].ip != rows[i].val.ip) ::
      UpsertAll(rows, nextId, objs, IpOf, Refresh).0[i] == rows[i]
  {
    RefreshOverwrites();
    UpsertAllLatestView(rows, nextId, objs, IpOf, Refresh, Looked);
    UpsertAllKeepsOthers(rows, nextId, objs, IpOf, Refresh);
    forall i | 0 <= i < |rows| && (forall k | 0 <= k < |objs| :: objs[k].ip != rows[i].val.ip)
      ensures forall o | o in objs :: IpOf(o) != IpOf(rows[i].val)
    {
    }
  }

  // ---------------------------------------------------------------- the decorator lines as written

  /**
   * What a decorator line of utils.log leaves in place of the method. `@log()` calls
   * the factory and applies its `decorator`, leaving `wrapper`, which takes any
   * arguments and swallows what the method raises. A bare `@log` calls the factory
   * with the method as `func_alias`, leaving the factory's inner `decorator`, which
   * takes exactly one argument.
   */
  datatype Decorated = Wrapper | InnerDecorator

  /** The line `@log()` (`called`) or `@log`. */
  function Decorate(called: bool): Decorated {
    if called then Wrapper else InnerDecorator
  }

  /**
   * Whether calling the decorated method on an instance with `n` arguments raises
   * TypeError before the method runs: the instance is passed too, so the inner
   * decorator gets n + 1 arguments for its one parameter.
   */
  function RejectsCall(d: Decorated, n: nat): (r: bool)
    ensures d == Wrapper ==> !r
    ensures d == InnerDecorator ==> (r <==> n > 0)
  {
    d == InnerDecorator && n + 1 != 1
  }

  /**
   * go under `@log()` and go as declared, under a bare `@log`, differ on every address
   * whose lookup succeeds: the first hands that address's result to _output_db, the
   * second raises at the call, before any lookup.
   */
  lemma BareLogDiffers(ip: string, lookup: string -> Option<Lookup>, readDate: string -> Option<Instant>)
    requires ResultOf(ip, lookup, readDate).Some?
    ensures RejectsCall(Decorate(false), 1) && !RejectsCall(Decorate(true), 1)
    ensures Results([ip], lookup, readDate) == ([ResultOf(ip, lookup, readDate).value], false)
    ensures Flushes([ip], lookup, readDate) == [[ResultOf(ip, lookup, readDate).value]]
  {
    var r := ResultOf(ip, lookup, readDate).value;
    var ips := [ip];
    ResultsMeaning(ips, lookup, readDate);
    var (g, raised) := Results(ips, lookup, readDate);
    assert !raised;
    assert g == [r];
    assert FullBatches([r], 100) == [] && Rest([r], 100) == [r];
  }

  // ---------------------------------------------------------------- the crawler

  /** The loop's state after the first `i` addresses: what it gathered, handed over and still holds. */
  predicate Fed(ips: seq<string>, i: nat, lookup: string -> Option<Lookup>, readDate: string -> Option<Instant>,
                gathered: seq<IpAsn>, raised: bool, flushed: seq<seq<IpAsn>>, pending: seq<IpAsn>)
  {
    && i <= |ips|
    && Results(ips[..i], lookup, readDate) == (gathered, raised)
    && flushed == FullBatches(gathered, 100) && pending == Rest(gathered, 100)
  }

  class AsnCrawler {
    const ipAsns: Table<IpAsn>
    /** --database: the addresses come from ip_asn instead of --ip-list. */
    const dbInput: bool

    ghost predicate Valid()
      reads ipAsns
    {
      && ipAsns.Valid() && ipAsns.admits == AnyRow && ipAsns.committed == ipAsns.rows
      && KeysUnique(ipAsns.rows, IpOf)
    }

    /** _init_crawler: the input mode and a session on the table. */
    constructor (ipAsns: Table<IpAsn>, database: bool)
      requires ipAsns.Valid() && ipAsns.admits == AnyRow && ipAsns.committed == ipAsns.rows
      requires KeysUnique(ipAsns.rows, IpOf)
      ensures Valid() && this.ipAsns == ipAsns && dbInput == database
    {
      this.ipAsns := ipAsns;
      dbInput := database;
    }

    /** _get_ip_list: every stored address in database mode, otherwise --ip-list split at commas. */
    function IpList(ipList: string): (r: seq<string>)
      reads this, ipAsns
      ensures dbInput ==> |r| == |ipAsns.rows| && forall k | 0 <= k < |r| :: r[k] == ipAsns.rows[k].val.ip
      ensures !dbInput ==> |r| >= 1 && Join(r, [',']) == ipList && forall k | 0 <= k < |r| :: ',' !in r[k]
    {
      if dbInput then seq(|ipAsns.rows|, k requires 0 <= k < |ipAsns.rows| reads ipAsns => ipAsns.rows[k].val.ip)
      else
        JoinSplit(ipList, ',');
        Split(ipList, ',')
    }

    /** _output_db as it runs under `@log()`: bulk_update of ip_asn with the batch, merged by address and committed. */
    method OutputDb(batch: seq<IpAsn>)
      requires Valid()
      modifies ipAsns
      ensures Valid()
      ensures (ipAsns.rows, ipAsns.nextId) == UpsertAll(old(ipAsns.rows), old(ipAsns.nextId), batch, IpOf, Refresh)
    {
      RefreshOverwrites();
      UpsertAllCovers(ipAsns.rows, ipAsns.nextId, batch, IpOf, Refresh);
      var ok := ipAsns.BulkUpdate(batch, IpOf, Refresh, true);
    }

    /**
     * go as crawler/asn.py:42 declares it, under a bare `@log`: `crawler.go(arguments)`
     * hands the inner decorator the crawler and the arguments and raises TypeError,
     * which main does not catch. _init_crawler never runs, so nothing is looked up,
     * handed over or stored.
     */
    method GoAsWritten(ipList: string, lookup: string -> Option<Lookup>, readDate: string -> Option<Instant>)
      returns (flushed: seq<seq<IpAsn>>, raised: bool)
      requires Valid()
      ensures raised && flushed == []
    {
      flushed := [];
      raised := RejectsCall(Decorate(false), 1);
    }

    /**
     * go as it runs under `@log()`: the addresses looked up in order, every hundredth result handing the hundred
     * over, and what is left handed over at the end. An address whose lookup raises
     * ends go (the exception goes to the log), with the hundreds before it stored.
     */
    method Go(ipList: string, lookup: string -> Option<Lookup>, readDate: string -> Option<Instant>)
      returns (flushed: seq<seq<IpAsn>>, raised: bool)
      requires Valid()
      modifies ipAsns
      ensures Valid()
      ensures flushed == Flushes(old(IpList(ipList)), lookup, readDate)
      ensures raised == Results(old(IpList(ipList)), lookup, readDate).1
      ensures (ipAsns.rows, ipAsns.nextId) == UpsertAll(old(ipAsns.rows), old(ipAsns.nextId), Concat(flushed), IpOf, Refresh)
    {
      var ips := IpList(ipList);
      ghost var rows0, next0 := ipAsns.rows, ipAsns.nextId;
      ghost var gathered: seq<IpAsn> := [];
      var ipResult: seq<IpAsn> := [];
      flushed, raised := [], false;
      var i := 0;
      while i < |ips| && !raised
        invariant Valid() && Fed(ips, i, lookup, readDate, gathered, raised, flushed, ipResult)
        invariant (ipAsns.rows, ipAsns.nextId) == UpsertAll(rows0, next0, Concat(flushed), IpOf, Refresh)
      {
        gathered, flushed, ipResult, raised := Feed(ips, i, lookup, readDate, gathered, flushed, ipResult, rows0, next0);
        i := i + 1;
      }
      FedEnd(ips, i, lookup, readDate, gathered, raised, flushed, ipResult);
      if !raised {
        Flush(ipResult, flushed, rows0, next0);
        flushed := flushed + [ipResult];
      }
    }

    /** One address of the loop: looked up, its result kept, and a hundred handed over when the hundredth comes in. */
    method Feed(ips: seq<string>, i: nat, lookup: string -> Option<Lookup>, readDate: string -> Option<Instant>,
                ghost gathered: seq<IpAsn>, flushed: seq<seq<IpAsn>>, ipResult: seq<IpAsn>,
                ghost rows0: seq<Stored<IpAsn>>, ghost next0: nat)
      returns (ghost gathered': seq<IpAsn>, flushed': seq<seq<IpAsn>>, ipResult': seq<IpAsn>, raised: bool)
      requires Valid() && i < |ips| && Fed(ips, i, lookup, readDate, gathered, false, flushed, ipResult)
      requires (ipAsns.rows, ipAsns.nextId) == UpsertAll(rows0, next0, Concat(flushed), IpOf, Refresh)
      modifies ipAsns
      ensures Valid() && Fed(ips, i + 1, lookup, readDate, gathered', raised, flushed', ipResult')
      ensures (ipAsns.rows, ipAsns.nextId) == UpsertAll(rows0, next0, Concat(flushed'), IpOf, Refresh)
    {
      var r := ResultOf(ips[i], lookup, readDate);
      gathered', flushed', ipResult', raised := gathered, flushed, ipResult, false;
      if r.None? {
        FedRaise(ips, i, lookup, readDate, gathered, flushed, ipResult);
        raised := true;
        return;
      }
      FedSnoc(ips, i, lookup, readDate, gathered, flushed, ipResult, r.value);
      gathered' := gathered + [r.value];
      ipResult' := ipResult + [r.value];
      if |ipResult'| % 100 == 0 {
        Flush(ipResult', flushed, rows0, next0);
        flushed' := flushed + [ipResult'];
        ipResult' := [];
      }
    }

    /** A batch handed to _output_db, the table then holding every batch so far merged in order. */
    method Flush(batch: seq<IpAsn>, ghost flushed: seq<seq<IpAsn>>, ghost rows0: seq<Stored<IpAsn>>, ghost next0: nat)
      requires Valid()
      requires (ipAsns.rows, ipAsns.nextId) == UpsertAll(rows0, next0, Concat(flushed), IpOf, Refresh)
      modifies ipAsns
      ensures Valid()
      ensures (ipAsns.rows, ipAsns.nextId) == UpsertAll(rows0, next0, Concat(flushed + [batch]), IpOf, Refresh)
    {
      OutputDb(batch);
      ConcatSnoc(flushed, batch);
      UpsertAllAppend(rows0, next0, Concat(flushed), batch, IpOf, Refresh);
    }
  }

  /** The loop state after one more address. */
  lemma FedStep(ips: seq<string>, i: nat, lookup: string -> Option<Lookup>, readDate: string -> Option<Instant>, gathered: seq<IpAsn>)
    requires i < |ips| && Results(ips[..i], lookup, readDate) == (gathered, false)
    ensures Results(ips[..i + 1], lookup, readDate) ==
      match ResultOf(ips[i], lookup, readDate)
      case None => (gathered, true)
      case Some(r) => (gathered + [r], false)
  {
    assert ips[..i + 1][..i] == ips[..i];
  }

  /** An address whose lookup raises ends the loop with nothing more gathered. */
  lemma FedRaise(ips: seq<string>, i: nat, lookup: string -> Option<Lookup>, readDate: string -> Option<Instant>,
                 gathered: seq<IpAsn>, flushed: seq<seq<IpAsn>>, pending: seq<IpAsn>)
    requires i < |ips| && Fed(ips, i, lookup, readDate, gathered, false, flushed, pending)
    requires ResultOf(ips[i], lookup, readDate).None?
    ensures Fed(ips, i + 1, lookup, readDate, gathered, true, flushed, pending)
  {
    FedStep(ips, i, lookup, readDate, gathered);
  }

  /** One more result joins the pending ones, and the hundredth hands the hundred over. */
  lemma FedSnoc(ips: seq<string>, i: nat, lookup: string -> Option<Lookup>, readDate: string -> Option<Instant>,
                gathered: seq<IpAsn>, flushed: seq<seq<IpAsn>>, pending: seq<IpAsn>, r: IpAsn)
    requires i < |ips| && Fed(ips, i, lookup, readDate, gathered, false, flushed, pending)
    requires ResultOf(ips[i], lookup, readDate) == Some(r)
    ensures |pending + [r]| % 100 == 0 ==>
      Fed(ips, i + 1, lookup, readDate, gathered + [r], false, flushed + [pending + [r]], [])
    ensures |pending + [r]| % 100 != 0 ==>
      Fed(ips, i + 1, lookup, readDate, gathered + [r], false, flushed, pending + [r])
  {
    FedStep(ips, i, lookup, readDate, gathered);
    FullBatchesShape(gathered, 100);
    BatchesSnoc(gathered, 100, r);
  }

  /** When the loop ends, it has gathered what the whole list gives. */
  lemma FedEnd(ips: seq<string>, i: nat, lookup: string -> Option<Lookup>, readDate: string -> Option<Instant>,
               gathered: seq<IpAsn>, raised: bool, flushed: seq<seq<IpAsn>>, pending: seq<IpAsn>)
    requires Fed(ips, i, lookup, readDate, gathered, raised, flushed, pending) && (i == |ips| || raised)
    ensures Results(ips, lookup, readDate) == (gathered, raised)
    ensures Flushes(ips, lookup, readDate) == flushed + (if raised then [] else [pending])
  {
    ResultsRaised(ips, i, lookup, readDate);
  }

  /** After an address raised, the addresses after it change nothing. */
  lemma {:induction false} ResultsRaised(ips: seq<string>, i: nat, lookup: string -> Option<Lookup>, readDate: string -> Option<Instant>)
    requires i <= |ips| && (i == |ips| || Results(ips[..i], lookup, readDate).1)
    ensures Results(ips, lookup, readDate) == Results(ips[..i], lookup, readDate)
    decreases |ips|
  {
    if i < |ips| {
      var init := ips[..|ips| - 1];
      assert init[..i] == ips[..i];
      ResultsRaised(init, i, lookup, readDate);
    } else {
      assert ips[..i] == ips;
    }
  }
}
