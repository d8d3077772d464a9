/**
 * export.py, PttExportHelper: reads the tables row by row into the report and
 * hands it to the writer of the chosen format under a dated file name.
 */
module ExportHelper {
  import opened Wrappers
  import opened Gateway
  import opened Records
  import opened Batches
  import opened ExportRows
  import opened ExportSheets

  /** ExportFormat. */
  datatype Format = Ods | Csv | Json

  /** ExportFormat[name]: None where the enum lookup raises KeyError. */
  function FormatOf(name: string): (r: Option<Format>)
    ensures r.Some? <==> name in {"ods", "csv", "json"}
    ensures r.Some? ==> FormatName(r.value) == name
  {
    if name == "ods" then Some(Ods) else if name == "csv" then Some(Csv) else if name == "json" then Some(Json) else None
  }

  /** ExportFormat.name: the extension of the written files. */
  function FormatName(f: Format): string {
    match f
    case Ods => "ods"
    case Csv => "csv"
    case Json => "json"
  }

  /** What is handed to a writer: the path and the data written there. */
  datatype Output =
    | OdsFile(path: string, sheets: Option<Sheets>)
    | CsvFile(path: string, rows: seq<Row>)
    | JsonFile(path: string, json: Option<JsonSheets>)

  /** os.path.join(folder, name) on POSIX. */
  function PathJoin(folder: string, name: string): (r: string)
    ensures name != [] && name[0] == '/' ==> r == name
    ensures (name == [] || name[0] != '/') && (folder == [] || folder[|folder| - 1] == '/') ==> r == folder + name
    ensures (name == [] || name[0] != '/') && folder != [] && folder[|folder| - 1] != '/' ==> r == folder + "/" + name
  {
    if name != [] && name[0] == '/' then name
    else if folder == [] || folder[|folder| - 1] == '/' then folder + name
    else folder + "/" + name
  }

  /** '{prefix}Ptt_report_{date}.{format}', for the ods and json reports. */
  function ReportName(prefix: string, today: string, f: Format): (r: string)
    ensures |prefix| <= |r| && r[..|prefix|] == prefix
    ensures EndsWith(r, "." + FormatName(f))
  {
    prefix + "Ptt_report_" + today + "." + FormatName(f)
  }

  /** '{prefix}Ptt_{sheet}_report_{date}.csv', one file per sheet. */
  function SheetName(prefix: string, sheet: string, today: string): string {
    prefix + "Ptt_" + sheet + "_report_" + today + ".csv"
  }

  /** The three csv files, written in the order the sheets were filled. */
  function CsvFiles(folder: string, prefix: string, today: string, sheets: Sheets): (r: seq<Output>)
    ensures |r| == 3 && forall k | 0 <= k < 3 :: r[k].CsvFile?
    ensures r[0].rows == sheets.articles && r[1].rows == sheets.pushes && r[2].rows == sheets.users
  {
    [CsvFile(PathJoin(folder, SheetName(prefix, "Article", today)), sheets.articles),
     CsvFile(PathJoin(folder, SheetName(prefix, "Push", today)), sheets.pushes),
     CsvFile(PathJoin(folder, SheetName(prefix, "User", today)), sheets.users)]
  }

  /**
   * What an export in format `f` hands to the writers, given the report of
   * _get_export_rows and that of _get_export_json: the report (or null) under the
   * report name for ods and json; for csv, one file per sheet, or nothing when the
   * report failed.
   */
  function Outputs(f: Format, folder: string, prefix: string, today: string, sheets: Option<Sheets>, json: Option<JsonSheets>)
    : (r: seq<Output>)
    ensures f != Csv ==> |r| == 1
    ensures f == Ods ==> r[0].OdsFile? && r[0].sheets == sheets
    ensures f == Json ==> r[0].JsonFile? && r[0].json == json
    ensures f == Csv ==> (r == [] <==> sheets.None?) && (sheets.Some? ==> |r| == 3)
  {
    match f
    case Ods => [OdsFile(PathJoin(folder, ReportName(prefix, today, Ods)), sheets)]
    case Json => [JsonFile(PathJoin(folder, ReportName(prefix, today, Json)), json)]
    case Csv => if sheets.None? then [] else CsvFiles(folder, prefix, today, sheets.value)
  }

  /** `s` ends with `t`. */
  predicate EndsWith(s: string, t: string) {
    |t| <= |s| && s[|s| - |t|..] == t
  }

  /** The joined path always ends with the file name. */
  lemma PathJoinEndsWithName(folder: string, name: string)
    ensures EndsWith(PathJoin(folder, name), name)
  {
  }

  /** Two names that are both relative, or both absolute, join one folder into different paths. */
  lemma NamesDiffer(folder: string, m: string, n: string)
    requires m != n && m != [] && n != [] && (m[0] == '/' <==> n[0] == '/')
    ensures PathJoin(folder, m) != PathJoin(folder, n)
  {
    if m[0] != '/' {
      if folder == [] || folder[|folder| - 1] == '/' {
        assert PathJoin(folder, m)[|folder|..] == m;
        assert PathJoin(folder, n)[|folder|..] == n;
      } else {
        assert PathJoin(folder, m)[|folder| + 1..] == m;
        assert PathJoin(folder, n)[|folder| + 1..] == n;
      }
    }
  }

  /** The three csv files of one export never overwrite one another. */
  lemma CsvPathsDistinct(folder: string, prefix: string, today: string, sheets: Sheets)
    ensures var r := CsvFiles(folder, prefix, today, sheets);
      r[0].path != r[1].path && r[1].path != r[2].path && r[0].path != r[2].path
  {
    var a, p, u := SheetName(prefix, "Article", today), SheetName(prefix, "Push", today), SheetName(prefix, "User", today);
    assert a[|prefix| + 4] == 'A' && p[|prefix| + 4] == 'P' && u[|prefix| + 4] == 'U';
    assert a[0] == p[0] == u[0];
    NamesDiffer(folder, a, p);
    NamesDiffer(folder, p, u);
    NamesDiffer(folder, a, u);
  }

  /** Report names carry the format's extension, sheet names ".csv". */
  lemma NameExtensions(prefix: string, today: string, f: Format, sheet: string)
    ensures EndsWith(ReportName(prefix, today, f), "." + FormatName(f))
    ensures EndsWith(SheetName(prefix, sheet, today), "." + FormatName(Csv))
  {
  }

  /**
   * What an export writes: one file for ods and json, holding the report or null;
   * three csv files holding the three sheets, or none when the report failed; every
   * path ends in the format's extension.
   */
  lemma OutputsWritten(f: Format, folder: string, prefix: string, today: string, sheets: Option<Sheets>, json: Option<JsonSheets>)
    ensures var r := Outputs(f, folder, prefix, today, sheets, json);
      forall k | 0 <= k < |r| :: EndsWith(r[k].path, "." + FormatName(f))
    ensures var r := Outputs(f, folder, prefix, today, sheets, json);
      && (f == Ods ==> |r| == 1 && r[0].OdsFile? && r[0].sheets == sheets)
      && (f == Json ==> |r| == 1 && r[0].JsonFile? && r[0].json == json)
    ensures var r := Outputs(f, folder, prefix, today, sheets, json);
      f == Csv ==> (r == [] <==> sheets.None?)
    ensures var r := Outputs(f, folder, prefix, today, sheets, json);
      f == Csv && sheets.Some? ==>
        && |r| == 3 && r[0].CsvFile? && r[1].CsvFile? && r[2].CsvFile?
        && r[0].rows == sheets.value.articles && r[1].rows == sheets.value.pushes && r[2].rows == sheets.value.users
  {
    var r := Outputs(f, folder, prefix, today, sheets, json);
    forall k | 0 <= k < |r| ensures EndsWith(r[k].path, "." + FormatName(f)) {
      var name := if f != Csv then ReportName(prefix, today, f)
        else if k == 0 then SheetName(prefix, "Article", today)
        else if k == 1 then SheetName(prefix, "Push", today)
        else SheetName(prefix, "User", today);
      assert r[k].path == PathJoin(folder, name);
      PathJoinEndsWithName(folder, name);
      NameExtensions(prefix, today, f, if k == 0 then "Article" else if k == 1 then "Push" else "User");
      SuffixOfSuffix(PathJoin(folder, name), name, "." + FormatName(f));
    }
  }

  /** A suffix of a suffix is a suffix. */
  lemma SuffixOfSuffix(s: string, t: string, u: string)
    requires EndsWith(s, t) && EndsWith(t, u)
    ensures EndsWith(s, u)
  {
    assert s[|s| - |u|..] == s[|s| - |t|..][|t| - |u|..];
  }

  class PttExportHelper {
    var fileFormat: Option<Format>
    var outputFolder: string
    var outputPrefix: string

    /** __init__ sets nothing; _init_helper fills the settings in. */
    constructor ()
      ensures fileFormat.None?
    {
      fileFormat := None;
      outputFolder := "";
      outputPrefix := "";
    }

    /**
     * _init_helper: the format by name, then the folder and prefix. An unknown format
     * name raises KeyError before the folder and prefix are set.
     */
    method InitHelper(format: string, folder: string, prefix: string) returns (raised: bool)
      modifies this
      ensures raised <==> FormatOf(format).None?
      ensures raised ==> fileFormat == old(fileFormat) && outputFolder == old(outputFolder) && outputPrefix == old(outputPrefix)
      ensures !raised ==> fileFormat == FormatOf(format) && outputFolder == folder && outputPrefix == prefix
    {
      var f := FormatOf(format);
      if f.None? {
        return true;
      }
      fileFormat := f;
      outputFolder := folder;
      outputPrefix := prefix;
      return false;
    }

    /**
     * go: sets the helper up and hands the report to the writer of its format. An
     * unknown format name makes _init_helper raise, which @log swallows: nothing is
     * written. `today` is the date the file names carry.
     */
    method Go(format: string, folder: string, prefix: string, today: string, db: Snapshot, show: Instant -> string)
      returns (outputs: seq<Output>, aborted: bool)
      requires StampsValid(db.pushes)
      modifies this
      ensures aborted <==> FormatOf(format).None?
      ensures aborted ==> outputs == []
      ensures !aborted ==> fileFormat == FormatOf(format) && outputFolder == folder && outputPrefix == prefix
      ensures !aborted ==> outputs == Outputs(FormatOf(format).value, folder, prefix, today, Report(db, show), JsonReport(db, show))
    {
      aborted := InitHelper(format, folder, prefix);
      if aborted {
        return [], true;
      }
      outputs := WriteReport(today, db, show);
    }

    /** The branch of go for the format the helper was set up with. */
    method WriteReport(today: string, db: Snapshot, show: Instant -> string) returns (outputs: seq<Output>)
      requires StampsValid(db.pushes) && fileFormat.Some?
      ensures outputs == Outputs(fileFormat.value, outputFolder, outputPrefix, today, Report(db, show), JsonReport(db, show))
    {
      match fileFormat.value
      case Ods =>
        var data := GetExportRows(db, show);
        outputs := [OdsFile(PathJoin(outputFolder, ReportName(outputPrefix, today, Ods)), data)];
      case Csv =>
        var data := GetExportRows(db, show);
        if data.None? {
          // data.items() on None raises, and @log swallows it.
          outputs := [];
        } else {
          outputs := WriteSheets(today, data.value);
        }
      case Json =>
        var data := GetExportJson(db, show);
        outputs := [JsonFile(PathJoin(outputFolder, ReportName(outputPrefix, today, Json)), data)];
    }

    /** The csv branch: one file per sheet, in the order the sheets are filled. */
    method WriteSheets(today: string, sheets: Sheets) returns (outputs: seq<Output>)
      ensures outputs == CsvFiles(outputFolder, outputPrefix, today, sheets)
    {
      outputs := [];
      var names := ["Article", "Push", "User"];
      var rows := [sheets.articles, sheets.pushes, sheets.users];
      for k := 0 to 3
        invariant outputs == CsvFiles(outputFolder, outputPrefix, today, sheets)[..k]
      {
        outputs := outputs + [CsvFile(PathJoin(outputFolder, SheetName(outputPrefix, names[k], today)), rows[k])];
      }
    }

    /**
     * _get_export_rows: every article in post_datetime order with the comments of its
     * latest version, then every user; None at the first failing lookup.
     */
    method GetExportRows(db: Snapshot, show: Instant -> string) returns (data: Option<Sheets>)
      requires StampsValid(db.pushes)
      ensures data == Report(db, show)
    {
      var articles := ArticleOrder(db.articles);
      var blockOf := BlockOf(db, show);
      var articleRows: seq<Row> := [HeaderRow(ArticleHeader)];
      var pushRows: seq<Row> := [HeaderRow(PushHeader)];
      ghost var blocks: seq<(Row, seq<Row>)> := [];
      var i := 0;
      while i < |articles|
        invariant 0 <= i <= |articles|
        invariant Collect(articles[..i], blockOf) == Some(blocks)
        invariant articleRows == [HeaderRow(ArticleHeader)] + Firsts(blocks)
        invariant pushRows == [HeaderRow(PushHeader)] + Concat(Seconds(blocks))
      {
        CollectStep(articles, i, blockOf);
        ghost var oldRows, oldPushRows := articleRows, pushRows;
        var block;
        articleRows, pushRows, block := ExportArticle(db, articles[i], show, articleRows, pushRows);
        assert blockOf(articles[i]) == block;
        if block.None? {
          return None;
        }
        BlockStep([HeaderRow(ArticleHeader)], [HeaderRow(PushHeader)], blocks, block.value, oldRows, oldPushRows);
        blocks := blocks + [block.value];
        i := i + 1;
      }
      assert articles[..i] == articles;
      assert ArticleBlocks(db, show) == Some(blocks);
      var userRows, users := AppendRows(db.users, UserRowOf(db, show), [HeaderRow(UserHeader)]);
      assert UserRows(db, show) == users;
      if users.None? {
        return None;
      }
      return Some(Sheets(articleRows, pushRows, userRows));
    }

    /**
     * _get_export_json: the same walk as GetExportRows, building one dict per article,
     * comment and user instead of a row; None at the first failing lookup.
     */
    method GetExportJson(db: Snapshot, show: Instant -> string) returns (data: Option<JsonSheets>)
      requires StampsValid(db.pushes)
      ensures data == JsonReport(db, show)
    {
      var articles := ArticleOrder(db.articles);
      var blockOf := JsonBlockOf(db, show);
      var articleJson: seq<JsonRow> := [];
      var pushJson: seq<JsonRow> := [];
      ghost var blocks: seq<(JsonRow, seq<JsonRow>)> := [];
      var i := 0;
      while i < |articles|
        invariant 0 <= i <= |articles|
        invariant Collect(articles[..i], blockOf) == Some(blocks)
        invariant articleJson == [] + Firsts(blocks)
        invariant pushJson == [] + Concat(Seconds(blocks))
      {
        CollectStep(articles, i, blockOf);
        ghost var oldArticles, oldPushes := articleJson, pushJson;
        var block;
        articleJson, pushJson, block := ExportArticleJson(db, articles[i], show, articleJson, pushJson);
        assert blockOf(articles[i]) == block;
        if block.None? {
          return None;
        }
        BlockStep([], [], blocks, block.value, oldArticles, oldPushes);
        blocks := blocks + [block.value];
        i := i + 1;
      }
      assert articles[..i] == articles;
      assert ArticleJsonBlocks(db, show) == Some(blocks);
      var userJson, users := AppendRows(db.users, UserJsonOf(db, show), []);
      assert UserJsons(db, show) == users;
      if users.None? {
        return None;
      }
      NoLead(users.value);
      NoLead(Firsts(blocks));
      NoLead(Concat(Seconds(blocks)));
      return Some(JsonSheets(articleJson, pushJson, userJson));
    }

  }

  /**
   * The body of the article loop: the article's row from its latest version
   * (history[0]), then the rows of that version's comments; None when it has no
   * version or a lookup fails.
   */
  method ExportArticle(db: Snapshot, a: Stored<Article>, show: Instant -> string, articleRows: seq<Row>, pushRows: seq<Row>)
    returns (articleRows': seq<Row>, pushRows': seq<Row>, block: Option<(Row, seq<Row>)>)
    requires StampsValid(db.pushes)
    ensures block == ArticleBlock(db, a, show)
    ensures block.Some? ==> articleRows' == articleRows + [block.value.0] && pushRows' == pushRows + block.value.1
  {
    articleRows', pushRows' := articleRows, pushRows;
    var history := History(db.histories, a.id);
    if history == [] {
      return articleRows', pushRows', None;
    }
    var row := ArticleRow(db, a.val, history[0].val, show);
    if row.None? {
      return articleRows', pushRows', None;
    }
    articleRows' := articleRows' + [row.value];
    ListedStampsValid(db.pushes, history[0].id);
    var group;
    pushRows', group := AppendRows(PushList(db.pushes, history[0].id), PushRowOf(db, a.val.webId, show), pushRows');
    if group.None? {
      return articleRows', pushRows', None;
    }
    return articleRows', pushRows', Some((row.value, group.value));
  }

  /** ExportArticle for the JSON report: the article's dict, then its comments' dicts. */
  method ExportArticleJson(db: Snapshot, a: Stored<Article>, show: Instant -> string, articleJson: seq<JsonRow>, pushJson: seq<JsonRow>)
    returns (articleJson': seq<JsonRow>, pushJson': seq<JsonRow>, block: Option<(JsonRow, seq<JsonRow>)>)
    requires StampsValid(db.pushes)
    ensures block == ArticleJsonBlock(db, a, show)
    ensures block.Some? ==> articleJson' == articleJson + [block.value.0] && pushJson' == pushJson + block.value.1
  {
    articleJson', pushJson' := articleJson, pushJson;
    var history := History(db.histories, a.id);
    if history == [] {
      return articleJson', pushJson', None;
    }
    var row := ArticleJson(db, a.val, history[0].val, show);
    if row.None? {
      return articleJson', pushJson', None;
    }
    articleJson' := articleJson' + [row.value];
    ListedStampsValid(db.pushes, history[0].id);
    var group;
    pushJson', group := AppendRows(PushList(db.pushes, history[0].id), PushJsonOf(db, a.val.webId, show), pushJson');
    if group.None? {
      return articleJson', pushJson', None;
    }
    return articleJson', pushJson', Some((row.value, group.value));
  }

  /**
   * The inner loops of the export: the row of every record in turn, appended to
   * `rows`; None at the first record whose row cannot be built (a lookup that fails).
   */
  method AppendRows<T, R>(xs: seq<T>, rowOf: T --> Option<R>, rows: seq<R>) returns (rows': seq<R>, group: Option<seq<R>>)
    requires forall k | 0 <= k < |xs| :: rowOf.requires(xs[k])
    ensures group == Collect(xs, rowOf)
    ensures group.Some? ==> rows' == rows + group.value
  {
    rows' := rows;
    var done: seq<R> := [];
    var j := 0;
    while j < |xs|
      invariant 0 <= j <= |xs|
      invariant Collect(xs[..j], rowOf) == Some(done)
      invariant rows' == rows + done
    {
      CollectStep(xs, j, rowOf);
      var row := rowOf(xs[j]);
      if row.None? {
        return rows', None;
      }
      AppendAssoc(rows, done, row.value);
      rows' := rows' + [row.value];
      done := done + [row.value];
      j := j + 1;
    }
    assert xs[..j] == xs;
    return rows', Some(done);
  }

  /** One more element: the collection so far, extended by the element's result, or None. */
  lemma CollectStep<T, U>(xs: seq<T>, i: nat, f: T --> Option<U>)
    requires i < |xs| && forall k | 0 <= k < |xs| :: f.requires(xs[k])
    ensures Collect(xs[..i + 1], f) ==
      if Collect(xs[..i], f).Some? && f(xs[i]).Some? then Some(Collect(xs[..i], f).value + [f(xs[i]).value]) else None
    ensures f(xs[i]).None? ==> Collect(xs, f).None?
  {
    assert xs[..i + 1][..i] == xs[..i];
  }

  lemma AppendAssoc<T>(a: seq<T>, b: seq<T>, x: T)
    ensures a + b + [x] == a + (b + [x])
  {
  }

  lemma NoLead<T>(s: seq<T>)
    ensures [] + s == s
  {
  }

  /** One more article block: its row joins the article sheet, its comment rows the comment sheet. */
  lemma BlockStep<R>(h: seq<R>, g: seq<R>, blocks: seq<(R, seq<R>)>, b: (R, seq<R>), rows: seq<R>, pushRows: seq<R>)
    requires rows == h + Firsts(blocks) && pushRows == g + Concat(Seconds(blocks))
    ensures rows + [b.0] == h + Firsts(blocks + [b])
    ensures pushRows + b.1 == g + Concat(Seconds(blocks + [b]))
  {
    assert Firsts(blocks + [b]) == Firsts(blocks) + [b.0];
    assert Seconds(blocks + [b]) == Seconds(blocks) + [b.1];
    ConcatSnoc(Seconds(blocks), b.1);
  }
}
