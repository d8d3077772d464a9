# PTT crawler — a Dafny model

This project models the core of a crawler that mirrors boards of the PTT bulletin
board into a relational store: it walks a board's index pages, records an index
entry per article, fetches and parses articles (title, author, date, body, the
poster's ip and the ordered list of pushes — the comments, each tagged 推, 噓 or
neutral), closes the latest version of an article it already stores and always
adds a new history row for it, and keeps users and ip addresses as shared rows. Beside the article crawler it models the
user crawler (login counts and valid-post counts from a user's page), the ASN
crawler (network-owner lookups for the stored ip addresses, a hundred at a time)
and the export helper (one csv file per sheet, one spreadsheet or one JSON file:
articles in post_datetime order, the comments of each article's latest version in
the order of its push list, and users in the table's own order).

Everything is stated on values and classes the program itself has:

| file | module | what it holds |
|---|---|---|
| wrappers.dfy | Wrappers | `Option` and `Result` |
| text.dfy | Text | strip, split, join, whitespace collapse, decimal reading, two-digit padding |
| gateway.dfy | Gateway | the generic database table of `models/base.py` (`Table<R>` class: rows, committed rows, id counter) with insert, first-match, bulk save and merge-by-primary-key |
| records.dfy | Records | the row types of `models/*.py` (board, user, ip, article, history, push, the account records) and their NOT NULL admissibility and orderings |
| legacy.dfy | Legacy | the older gateway of `crawler/models.py`, which commits after every write |
| store.dfy | Store | the ORM session: one table per model, the clock behind `datetime.now()`, commit and rollback |
| article_parse.dfy | ArticleParse | parsing one article page into fields, pushes and push counts (`crawler/article.py`) |
| article_fields.dfy | ArticleFields | the author id, and a comment's address and time |
| article_sync.dfy | ArticleSync | the version-aware write of a parsed article: user, ip, article, history and pushes; the index upsert |
| listing.dfy | Listing | reading an index page: the previous-page link, the entry blocks up to the separator, the link of each entry |
| index_walk.dfy | IndexWalk | `ArticleIndexCrawler`: the walk over index pages and its writes |
| article_walk.dfy | ArticleWalk | `ArticleCrawler`: the walk by page range and the walk over stored index rows, in batches of twenty |
| output_config.dfy | OutputConfig | which outputs (database, json) a crawler is asked for |
| batches.dfy | Batches | cutting a run of results into full groups and a remainder |
| user_crawler.dfy | UserCrawler | `UserCrawler` of `crawler/user.py` |
| asn_crawler.dfy | AsnCrawler | `AsnCrawler` of `crawler/asn.py` |
| export_rows.dfy | ExportRows | turning stored rows into export rows, column by column |
| export_sheets.dfy | ExportSheets | the csv and spreadsheet outputs, table by table |
| export_helper.dfy | ExportHelper | `ExportHelper.go` and its dispatch on the format |

The network (page fetches, the user page, the ASN lookup) is a parameter: each
walk receives the pages or answers it would have fetched, so every property holds
for whatever the site returns. Parsing a date string with `strptime`/`strftime`
and the rebroadcast-line regular expression are opaque functions in a `Formats`
value; every other regular expression of the core is written out as a matcher.
The clock behind `datetime.now()` is modelled as a counter that never decreases
from one reading to the next. Exceptions that a `@log`-decorated call swallows are modelled as the
error branch of a `Result` or as an early end of that call, with the writes made
before the failure kept.

Behaviours of the code the model keeps as written:

- the walk over stored index rows (`crawler/article.py:460-494`) writes its parsed
  articles only in full batches of twenty, so a trailing batch of fewer than twenty
  is parsed but never written;
- the upgrade query of that walk filters on `Article.board_id` without a join, so it
  selects every index row when the board has at least one article and none otherwise;
- the date filter of the walk by page range (`crawler/article.py:432-449`) raises on a
  page that came back as an error entry, which ends the whole walk;
- in `crawler/article_index.py` the `link` variable keeps its value from one entry to
  the next; the `KeyError` of an entry block without a class attribute is caught by the
  loop's own handler, whose logging line raises `UnboundLocalError` only when no `link`
  has been bound yet (crawler/article_index.py:148-168); and entries of a board that is
  not stored are dropped without a write;
- push times are read with the format `%m/%d %M:%S` in year 1900, so the hour and
  minute are taken as minute and second and a push dated 02/29 is unreadable;
- `crawler/asn.py` applies `@log` without parentheses, which leaves `go` and
  `_output_db` bound to the inner one-argument decorator: calling `go` raises
  `TypeError` before any address is looked up (see "## Findings"); the model keeps
  that as `AsnCrawler.GoAsWritten` and models the evidently intended `@log()` in
  `Go`, `Feed` and `Flush`;
- in `export.py` an unknown format raises when the enum is indexed, before `go`
  dispatches, so its final `ValueError` branch cannot be reached.

## Model

| member | source | states |
|---|---|---|
| Gateway.FirstMatch | models/base.py:55 | the position of the first row meeting the condition, with no row before it meeting it; None exactly when no row meets it |
| Gateway.Select | models/base.py:81 | every row meeting the condition and only those, in table order (ids stay increasing) |
| Gateway.Numbered | models/base.py:91-92 | bulk-saved objects get consecutive ids from the counter, in order |
| Gateway.KeyIndex | models/base.py:101 | the first row carrying the primary key; None exactly when no row carries it |
| Gateway.UpsertAllKeepsOthers | models/base.py:98-103 | a merge batch never moves or renumbers an existing row, leaves rows whose key no object carries untouched, and only appends rows numbered from the counter |
| Gateway.UpsertAllCovers | models/base.py:98-103 | after a merge batch every object's key has a row, and keys that were unique stay unique |
| Gateway.UpsertStep | models/base.py:101 | one merge keeps keys unique, finds the object's key afterwards and keeps every row's key |
| Gateway.KeyIndexOfRow | models/base.py:101 | with unique keys, looking up the key of row p finds row p |
| Gateway.UpsertAllLatestView | models/base.py:98-103 | after a merge batch, the row of each object's key shows that object's columns unless a later object of the batch has the same key |
| Gateway.UpsertAllLatest | models/base.py:98-103 | with a merge that overwrites every column, the row of each key holds the last object of the batch with that key |
| Gateway.UpsertAllAppend | models/base.py:98-103 | merging one batch and then another is merging the two joined |
| Gateway.UpsertAllIncreasing | models/base.py:98-103 | a merge batch keeps ids strictly increasing and below the counter |
| Gateway.UpsertAllNumbers | models/base.py:98-103 | the rows a merge batch appends are numbered consecutively from the counter |
| Gateway.UpsertCounts | models/base.py:101 | one merge adds a row exactly when no row has the object's key; the added row is the object under the counter, which moves on by one |
| Gateway.UpsertAllCounts | models/base.py:98-103 | a merge batch adds at most one row per object, and the counter moves on by the number of rows added |
| Gateway.Lower | models/base.py:35 | lower-casing keeps the length and maps each character |
| Gateway.OpenEngine | models/base.py:33-48 | succeeds exactly when the lower-cased type is "sqlite"; the URL is "sqlite:///" + name; otherwise the ValueError message |
| Gateway.Table.constructor | models/base.py:50-52 | a fresh session sees an empty table with nothing committed |
| Gateway.Table.Get | models/base.py:76-78 | a row meeting the condition, or None exactly when no row meets it |
| Gateway.Table.GetList | models/base.py:80-82 | every row meeting the condition and only those, in table order |
| Gateway.Table.Commit | models/base.py:61-62 | the committed rows become the rows the session sees |
| Gateway.Table.Rollback | models/base.py:63-64 | the rows go back to the last commit; the counter is kept |
| Gateway.Table.Insert | models/base.py:59-64 | add and flush: the row is appended under the next id when it meets the NOT NULL constraints, otherwise the transaction is rolled back |
| Gateway.Table.GetOrCreate | models/base.py:54-65 | returns the first matching row unchanged when there is one, otherwise creates the row (or rolls back on a NOT NULL violation); `created` is true exactly when nothing matched |
| Gateway.Table.Create | models/base.py:67-74 | appends the row under the next id, or rolls back on a NOT NULL violation |
| Gateway.Table.Update | crawler/article.py:179-180 | an attribute assignment flushed with the session replaces row i's values and keeps its id |
| Gateway.Table.Delete | models/base.py:84-89 | exactly the rows not meeting the condition remain; committed when auto_commit is set |
| Gateway.Table.BulkInsert | models/base.py:91-96 | all objects are appended with consecutive ids, or, if one breaks a NOT NULL constraint, none is and the transaction is rolled back |
| Gateway.Table.BulkUpdate | models/base.py:98-107 | the rows become the merge of each object in turn by primary key; a NOT NULL violation rolls back |
| Records.Placeholder | models/asn.py:23-40 | the row the crawlers insert for a new address: only the address is set |
| Records.InsertDesc | models/article.py:38-39 | inserting into a list sorted by descending key keeps it sorted and adds exactly the element |
| Records.SortDesc | models/article.py:38-39 | ORDER BY key DESC: sorted descending, a permutation of the input |
| Records.Children | models/article.py:38-39 | a relationship collection holds exactly the parent's children, latest first |
| Records.FirstChildIsLatest | models/article.py:38-39 | the first child has the greatest key: history[0] is the latest version |
| Records.ResultProcessor | models/asn.py:11-17 | a value read from the database is handed back unchanged, None included |
| Records.Adapt | models/asn.py:19-20 | the adapted column type keeps the time-zone flag |
| Legacy.PlaceholderOnlyFitsCurrentSchema | crawler/models.py:147-164 | the address-only ip_asn row breaks the legacy NOT NULL columns and fits the current schema |
| Legacy.AfterLastSlash | crawler/models.py:178 | the position just past the last '/', with no '/' after it |
| Legacy.DropTrailingSlashes | crawler/models.py:178 | a prefix of the head with no trailing '/', and only '/' removed |
| Legacy.DirnameOfPath | crawler/models.py:178 | the folder of "folder/file" is "folder"; a bare file name has none |
| Legacy.OpenLegacy | crawler/models.py:172-187 | the same type check and URL as the current gateway; a folder is created exactly when the database name has a directory part |
| Legacy.LegacyTable.constructor | crawler/models.py:189-191 | a fresh session over an empty table |
| Legacy.LegacyTable.GetOrCreate | crawler/models.py:193-201 | get_or_create that always commits |
| Legacy.LegacyTable.Create | crawler/models.py:203-207 | create that always commits |
| Legacy.LegacyTable.Get | crawler/models.py:209-211 | a matching row, or None exactly when none matches |
| Legacy.LegacyTable.Delete | crawler/models.py:213-215 | exactly the rows not meeting the condition remain, committed |
| Legacy.LegacyTable.BulkInsert | crawler/models.py:217-219 | all objects appended with consecutive ids, or none on a NOT NULL violation |
| Store.Clock.Read | crawler/article.py:179 | datetime.now() never goes back |
| Store.Session.constructor | crawler/article.py:87-90 | a fresh session over empty tables, usable |
| Store.Session.Now | crawler/article.py:187-188 | a clock reading no earlier than any earlier one |
| Store.Session.CloseVersion | crawler/article.py:178-180 | history[0].end_at becomes a new clock reading; nothing else changes |
| Store.Session.AddVersion | crawler/article.py:182-189 | a new version with the record's title and content, start_at and end_at two successive readings |
| Store.Session.CommitAll | crawler/article.py:221 | every table's committed rows become its rows |
| Store.Session.Fail | models/base.py:63-64 | a failed flush rolls every table back and leaves the session unusable |
| Store.VersionsLater | crawler/article.py:179-188 | stamps no later than one reading are no later than any later reading |
| Store.RecordsLater | crawler/user.py:147-148 | login records stamped before one reading stay before any later one |
| Store.VersionsAppend | crawler/article.py:182-189 | a new version stamped before the reading keeps every version before it |
| Store.VersionsUpdate | crawler/article.py:179-180 | closing a version at a reading keeps every version before it |
| Legacy.AfterLastSlashOf | crawler/models.py:178 | in "dir/" + file with no '/' in file, the last '/' ends right before the file |
| ArticleParse.Metas | crawler/article.py:237-247 | one entry per header line, in page order: the value span's text, or None for a line without one |
| ArticleParse.FirstContaining | crawler/article.py:256 | the string at the first position holding the pattern, no earlier string holding it; None exactly when no string holds it |
| ArticleParse.FirstIndexFrom | crawler/article.py:256 | the first position from i whose string holds the pattern; None exactly when none from i does |
| ArticleParse.HeaderOf | crawler/article.py:236-267 | with header lines: author, title and date are the first three values, and a missing line or value raises; without header lines the title is empty; with no '※ 轉錄者:' line, or one the rebroadcast pattern does not match, all three are empty; a matched line whose date strptime rejects raises; otherwise the author is group 1 and the date group 2 reformatted |
| ArticleParse.DottedFromLeftmost | crawler/article.py:276 | the search returns the leftmost position where the dotted pattern matches, or reports that none does |
| ArticleParse.DottedToken | crawler/article.py:276 | the address kept is a non-empty run of digits and dots found in the line; None exactly when the pattern matches nowhere |
| ArticleParse.SenderIp | crawler/article.py:274-278 | the address is the dotted token of the first string holding '※ 發信站:'; no such line means no address |
| ArticleParse.SenderAddress | crawler/article.py:274-278 | on a line "… a.b.c.d …" whose text around the address holds no digit next to it, the address kept is exactly a.b.c.d |
| ArticleParse.FirstDotted | crawler/article.py:276 | the token is the match at the first position where one starts |
| ArticleParse.KeepAllowed | crawler/article.py:284-287 | the result holds only allowed characters; a line of allowed characters is unchanged |
| ArticleParse.KeepAllowedKeeps | crawler/article.py:284-287 | every allowed character of the line stays and nothing new appears |
| ArticleParse.KeepAllowedIdempotent | crawler/article.py:284-287 | filtering twice is filtering once |
| ArticleParse.StrippedStrings | crawler/article.py:282 | stripped_strings yields no empty string |
| ArticleParse.MapKeepAllowed | crawler/article.py:286-287 | each line filtered in turn, same number of lines |
| ArticleParse.FilterLines | crawler/article.py:286-287 | the in-place pass over `filtered` leaves each line filtered |
| ArticleParse.BodyOmitsId | crawler/article.py:291 | for a non-empty id without whitespace, the body never contains the article id |
| ArticleParse.BodyIsClean | crawler/article.py:282-293 | the body holds only allowed characters and never two whitespace characters in a row |
| ArticleParse.StrippedStringsAppend | crawler/article.py:282 | stripped_strings of two runs of text is the concatenation of each run's |
| ArticleParse.MapKeepAllowedAppend | crawler/article.py:286-287 | filtering characters line by line distributes over concatenation |
| ArticleParse.BodyLinesAppend | crawler/article.py:282-291 | the lines that reach the body from two runs of text are those of the first run followed by those of the second: survivors keep their order |
| ArticleParse.BodyLinesOne | crawler/article.py:282-291 | a single text reaches the body exactly when, stripped, it is non-empty, opens with neither '※' nor '◆' nor '--', keeps a character after the filter and lacks the article id; it then reaches it filtered |
| ArticleParse.BodyOfWordLines | crawler/article.py:292-293 | when no surviving line holds whitespace, the body is exactly the survivors joined by single spaces |
| ArticleParse.DropFirst | crawler/article.py:307 | s[1:], empty for the empty string |
| ArticleParse.MessagesOf | crawler/article.py:299-312 | at most one message per comment block |
| ArticleParse.TagCount | crawler/article.py:313-318 | a count of messages never exceeds their number |
| ArticleParse.CollectMessages | crawler/article.py:297-318 | the loop's messages are those of the blocks with a tag span; p and b count the '推' and '噓' tags and p + b + n is the number of messages |
| ArticleParse.MessagesStep | crawler/article.py:299-312 | one more block adds its message exactly when it has a tag span |
| ArticleParse.TagCountStep | crawler/article.py:313-318 | one more message adds one to the count of its tag only |
| ArticleParse.Tally | crawler/article.py:321-322 | all is the number of messages, count is pushes less boos, and the three kinds add up to all |
| ArticleParse.TallyOfCounts | crawler/article.py:320-322 | the loop's three counters make up message_count |
| ArticleParse.RecordIsClean | crawler/article.py:328-339 | the record carries the link, board, id and header, the comments and their tally, a clean body without the article id, and the address of the '※ 發信站:' line |
| ArticleParse.ParseSpec | crawler/article.py:223-341 | a status other than 200 gives the error dict; otherwise a record exactly when the page has a main block and a readable header; the record's author, title and date are the header's, its ip is the sender address of the body texts, with comments, tally and clean body as stated |
| ArticleParse.CleanBody | crawler/article.py:282-293 | the body pipeline, filter in place, equals the body function |
| ArticleParse.BuildRecord | crawler/article.py:282-339 | builds exactly the record of the page |
| ArticleParse.Parse | crawler/article.py:223-341 | the method returns what ParseSpec states |
| ArticleFields.WordRunEnd | crawler/article.py:133 | the end of the run of non-whitespace characters |
| ArticleFields.AuthorEnd | crawler/article.py:133 | the longest end of group 1 that the rest of the pattern accepts, or none |
| ArticleFields.AuthorSearch | crawler/article.py:133 | the leftmost start at which the author pattern matches, with no match before it; None exactly when it matches nowhere |
| ArticleFields.ParseAuthor | crawler/article.py:132-137 | the whole line when the pattern fails, otherwise group 1 of the pattern's match, a whitespace-free part of the line |
| ArticleFields.AuthorWithoutParen | crawler/article.py:132-137 | a line without '(' is kept whole |
| ArticleFields.AuthorOfIdAndNickname | crawler/article.py:132-137 | "id (nickname)" gives the id |
| ArticleFields.DigitDotRunEnd | crawler/article.py:120 | the end of the run of digits and dots |
| ArticleFields.StampEnd | crawler/article.py:120 | group 1 ends at the largest position in range after which the stamp can follow; group 2 starts after one non-word character when that fits, else right there; None exactly when no position in range admits the stamp |
| ArticleFields.StampSearch | crawler/article.py:120 | a match: digits and dots, then a "DD/DD DD:DD" stamp |
| ArticleFields.StampSearchLeftmost | crawler/article.py:119-120 | re.search's choice: the match starts at the leftmost position that admits one, with StampEnd's group ends there; None exactly when no position admits a match |
| ArticleFields.PushIpAndTime | crawler/article.py:118-122 | None exactly when the search fails; otherwise the address is group 1 and the time text the 11 characters of group 2, both taken at the match's positions in the field; the address is digits and dots |
| ArticleFields.PushFieldWithAddress | crawler/article.py:118-126 | "1.2.3.4 05/06 12:34" splits into its address and its time text |
| ArticleFields.PushFieldWithoutAddress | crawler/article.py:118-126 | a field of only the time text has an empty address |
| ArticleFields.ReadPushStamp | crawler/article.py:123-124 | a date of 1900 with minute and second below 60, or None where strptime raises |
| ArticleFields.StampText | crawler/article.py:120 | renders an 11-character "MM/DD hh:mm" stamp |
| ArticleFields.PushStampReading | crawler/article.py:123-124 | "MM/DD hh:mm" reads as month, day, minute hh and second mm, and fails exactly for dates 1900 lacks or numbers above 59 |
| ArticleFields.ParsePushIpDatetime | crawler/article.py:118-130 | None when the search fails; after a successful search, a result exactly when strptime reads the time text, and then the address of group 1 and that reading |
| ArticleFields.PushFieldReading | crawler/article.py:118-130 | '<address> MM/DD hh:mm' yields the address and the stamp exactly for dates 1900 has and hh, mm at most 59; otherwise None |
| ArticleSync.GrownTrans | crawler/article.py:139-221 | a table that only grew twice only grew |
| ArticleSync.UsersGrewTrans | crawler/article.py:152-156 | users added in two steps were all created with both counters 0 |
| ArticleSync.AddressesGrewTrans | crawler/article.py:172-177 | address rows added in two steps are all placeholders |
| ArticleSync.EnsureUser | crawler/article.py:152-156 | the stored user of that name is returned and nothing changes, or a new user with login_times and valid_article_count 0 is appended |
| ArticleSync.EnsureBoard | crawler/article.py:157-160 | a board of that name is returned; at most one row is appended |
| ArticleSync.EnsureAddress | crawler/article.py:172-177 | afterwards a row holds the address; a known address changes nothing, an unknown one adds a placeholder |
| ArticleSync.CloseLatest | crawler/article.py:178-180 | the article's latest version is closed at a fresh clock reading and nothing else changes; an article without versions raises and changes nothing |
| ArticleSync.WriteVersion | crawler/article.py:178-189 | a stored article's latest version is closed first; then one version of the record's title and content is appended, stamped no earlier than the closing |
| ArticleSync.PushRow | crawler/article.py:206-212 | the comment row carries the version id, the floor, the message's tag and content, the commenter's id, the address and the time |
| ArticleSync.FieldsOf | crawler/article.py:203-204 | one reading of address and time per message |
| ArticleSync.AddPush | crawler/article.py:194-218 | the commenter's user row exists afterwards; a readable field gives the row of that message; tables only grow |
| ArticleSync.CollectPushes | crawler/article.py:192-218 | ok exactly when every field reads; then the k-th row is the row of the k-th message at floor k+1, pointing at a user of the commenter's name |
| ArticleSync.PushesStep | crawler/article.py:193-212 | the row of the next message extends the correspondence |
| ArticleSync.KeepsUsers | crawler/article.py:192-218 | rows that only grew keep every user the queued comments point at |
| ArticleSync.EnsureOwners | crawler/article.py:152-160 | afterwards the author and the board both have rows of their names |
| ArticleSync.StoreArticle | crawler/article.py:162-177 | a stored article under the web id is returned unchanged, otherwise a new row with the record's author, board, date and address is appended; a new article without an address breaks the flush and the session |
| ArticleSync.InsertPushes | crawler/article.py:220 | the comment rows are appended in order, uncommitted |
| ArticleSync.WriteContent | crawler/article.py:178-218 | the version and the comment rows are built exactly when the version can be closed and every field reads |
| ArticleSync.FinishRecord | crawler/article.py:178-221 | on success everything is committed, with one version and one comment row per message appended; on failure committed state is kept |
| ArticleSync.WriteRecord | crawler/article.py:162-221 | the record is persisted exactly when it is Writable; the article, its version and its comment rows are as stated; boards, login records and the index are untouched |
| ArticleSync.HasUserGrown | crawler/article.py:152-156 | a user row stays when the table only grows |
| ArticleSync.OwnRecord | crawler/article.py:140-221 | persisted exactly when the date reads and the record is Writable; the session breaks exactly for a new article without an address |
| ArticleSync.PersistRecord | crawler/article.py:139-221 | without the upgrade flag a stored article is skipped and nothing changes; a broken session aborts; otherwise the record lands or aborts with committed state kept |
| ArticleSync.ShapeStep | crawler/article.py:139-221 | one more non-final outcome keeps the batch shape |
| ArticleSync.PersistParsed | crawler/article.py:139-140 | an error record raises at its author field |
| ArticleSync.OutputDatabase | crawler/article.py:116-221 | one outcome per record reached; only the last can abort, and then the rest are not reached; a skip happens only without the upgrade flag; a persisted record has one comment row per message |
| ArticleSync.IndexRows | crawler/article.py:107-113 | one object per entry, with its web id, the board's id and its page |
| ArticleSync.MergeIndexes | models/base.py:98-107 | every object is merged by web id; the last object of each web id is what is stored under it |
| ArticleSync.OutputIndex | crawler/article.py:103-114 | with the board found (or no entries), the index objects are merged by web id and committed, and no other table changes; a missing board with entries raises and nothing changes |
| ArticleSync.StoreIndexRows | crawler/article.py:107-114 | the page's index objects are merged by web id under the board's id and committed, no other table changes, and with unique web ids each entry's row shows the last entry with its web id |
| Listing.RaisesForStatus | crawler/article_index.py:136 | raise_for_status raises exactly for the 4xx and 5xx status codes |
| Listing.BeforeSep | crawler/article_index.py:146-150 | the divs the loop looks at: a prefix with no separator, followed by a separator or nothing |
| Listing.EntryLinks | crawler/article_index.py:151-153 | at most one link per div |
| Listing.PrependNothing | crawler/article_index.py:146-169 | nothing put in front changes nothing |
| Listing.PrependAppend | crawler/article_index.py:146-169 | putting two fronts one after the other is putting their concatenation |
| Listing.WebIdOfLink | crawler/article_index.py:155-156 | the link /bbs/board/id.html gives back id |
| Listing.WordCharsEnd | crawler/article_index.py:103 | the end of the run of \w characters lies inside the string |
| Listing.DigitsEnd | crawler/article_index.py:103 | the characters up to the end of the run are digits |
| Listing.PrevPageAt | crawler/article_index.py:102-103 | a match at a position yields a decimal number |
| Listing.PageAfterHead | crawler/article_index.py:103 | a match after the head yields a decimal number |
| Listing.PageDigits | crawler/article_index.py:103 | a match of the page part yields a decimal number |
| Listing.PrevPageFrom | crawler/article_index.py:102-103 | the match yields a decimal number; None exactly when the pattern matches at no position from i |
| Listing.PrevPageFromLeftmost | crawler/article_index.py:102-103 | re.search returns the group of the leftmost position where the pattern matches |
| Listing.LastPageOf | crawler/article.py:344-359 | the last page is at least 1, and exactly 1 when the pattern matches nowhere |
| Listing.LastPageOfLeftmost | crawler/article.py:355-359 | the last page is the number the leftmost '‹' link names, plus one |
| Listing.WordCharsEndOf | crawler/article_index.py:103 | a run of n word characters followed by a non-word character ends after n |
| Listing.DigitsEndOf | crawler/article_index.py:103 | a run of n digits followed by a non-digit ends after n |
| Listing.PrevPageAtMatch | crawler/article_index.py:102-103 | the pattern matches where the previous-page link sits and captures its page digits |
| Listing.PageDigitsOf | crawler/article_index.py:103 | digits followed by the link tail are captured |
| Listing.PageAfterHeadOf | crawler/article_index.py:103 | a board name, "/index" and the captured digits match after the head |
| Listing.LastPageOfPrevLink | crawler/article_index.py:90-106 | a page whose first '‹' link, after text in which no match starts, names page n gives n + 1 |
| Listing.HeadOccurrences | crawler/article_index.py:103 | the front page opens with the link head and the board name |
| Listing.TailOccurrences | crawler/article_index.py:103 | "/index", the digits and the tail follow the board name |
| Listing.IndexPartOccurrences | crawler/article_index.py:103 | "/index", the digits and the tail sit at their offsets |
| Listing.NoPrevPageFrom | crawler/article_index.py:102-105 | without the link head the search fails |
| Listing.LastPageWithoutPrevLink | crawler/article_index.py:104-105 | a page without the "‹" link counts as page 1 |
| IndexWalk.EntryIndexes | crawler/article_index.py:151-166 | a readable entry adds one object with its web id, the board's id and the page; with no stored board, board.id raises inside the bare try and nothing is added |
| IndexWalk.IndexesOf | crawler/article_index.py:144-166 | one object per link, in order, or none when the board is not stored |
| IndexWalk.IndexesOfCons | crawler/article_index.py:146-166 | the objects of h followed by links are those of h, then those of the links |
| IndexWalk.PageIndexesEntries | crawler/article_index.py:144-169 | a scan that does not raise yields the objects of the readable entries before the first separator, and binds `link` exactly when one exists or it was bound |
| IndexWalk.PageIndexesRaises | crawler/article_index.py:146-169 | the scan raises exactly when `link` is unbound and a div without a class comes before any separator or readable entry |
| IndexWalk.ScanPage | crawler/article_index.py:144-169 | the loop yields the scan's objects and binding, or raises as the scan does |
| IndexWalk.PagedFromCons | crawler/article_index.py:119-173 | a page's batch in front of the batches of the pages below keeps the numbering |
| IndexWalk.WalkPages | crawler/article_index.py:119-174 | a walk that does not raise writes one batch per page of the range; one that raises stops inside it; the k-th batch is page end - k, under the board's id |
| IndexWalk.WalkFromStep | crawler/article_index.py:119-173 | a finished batch moves from the rest of the walk to the part done |
| IndexWalk.WalkAdvance | crawler/article_index.py:119-173 | one more page either raises, ending the walk, or adds its batch |
| IndexWalk.WalkUnfold | crawler/article_index.py:119-173 | the walk at a page of the range is that page's outcome followed by the walk below it |
| IndexWalk.Walk | crawler/article_index.py:119-174 | at most one batch per page of the range, and one for every page when no page raised |
| IndexWalk.MergeBatches | crawler/article_index.py:171 | merging the batches only appends rows, and the counter moves on by the number of rows appended |
| IndexWalk.InitialRange | crawler/article_index.py:37-54 | before mode starts at page 1 and after mode ends at the last page; the other bound is the explicit index, else the stored page, else the last page, with 0 counting as absent |
| IndexWalk.MergeBatchesSnoc | crawler/article_index.py:171 | merging one more batch is one more merge by web id |
| IndexWalk.UpsertAllKeepsKeys | models/base.py:98-107 | with unique web ids, a merge keeps every web id that had a row, and keeps them unique |
| IndexWalk.MergeBatchesCovers | crawler/article_index.py:119-173 | once merged, every article listed on a walked page has an index row, and web ids stay unique |
| IndexWalk.BoardPages | crawler/article_index.py:78-82 | exactly the pages stored for the board |
| IndexWalk.Extreme | crawler/article_index.py:77-88 | the minimum (before) or maximum (after) of the pages, and None exactly when there are none |
| IndexWalk.RangeFromStoredPages | crawler/article_index.py:37-54 | without an index, before mode starts at 1 and ends at the lowest stored page, after mode starts at the highest stored page and ends at the last page; with nothing stored the whole board, or only the last page |
| IndexWalk.DBLastPage | crawler/article_index.py:72-88 | the board is get-or-created and committed, and the extreme of its stored pages is returned |
| IndexWalk.IndexCrawler.constructor | crawler/article_index.py:22-57 | the range is the one InitialRange states, from the explicit index or the stored pages or the last page |
| IndexWalk.IndexCrawler.OutputPage | crawler/article_index.py:108-110 | the page's objects are merged by web id and committed |
| IndexWalk.IndexCrawler.CrawlPage | crawler/article_index.py:120-171 | the page's outcome: a 4xx/5xx status or a missing container raises and nothing is written; otherwise its objects are merged |
| IndexWalk.IndexCrawler.Crawl | crawler/article_index.py:112-174 | the index table ends up as the walk's batches merged in order, end_index counts down by one per written page, and a walk that does not raise ends below start_index |
| IndexWalk.IndexCrawler.CrawlStep | crawler/article_index.py:119-173 | one turn of the loop: the page raises with nothing written, or its batch is merged and end_index drops by one |
| Text.TrimLeft | crawler/article.py:302 | what remains is a suffix of the input that starts with a kept character, and everything dropped before it is strippable |
| Text.TrimRight | crawler/article.py:302 | what remains is a prefix of the input that ends with a kept character, and everything dropped after it is strippable |
| Text.TrimIsInfix | crawler/article.py:302-310 | a strip yields a piece of its input whose two ends are kept characters |
| Text.TrimIdempotent | crawler/article.py:302-310 | stripping twice is stripping once |
| Text.Split | crawler/article.py:407 | split never yields an empty list, and no piece holds the separator |
| Text.JoinSplit | crawler/article.py:407 | joining the pieces with the separator gives the string back |
| Text.SplitLast | crawler/article.py:407 | the last piece of split('/') is what follows the last '/' |
| Text.SplitNoSep | crawler/article.py:407 | a string without the separator splits into itself |
| Text.SplitCount | crawler/article.py:407 | a string holding the separator splits into at least two pieces |
| Text.DropSpaces | crawler/article.py:293 | what remains is a suffix that does not start with whitespace |
| Text.Collapse | crawler/article.py:293 | re.sub(r'(\s)+', ' ', s) never lengthens the string, keeps it empty exactly when it was, and keeps whether it opens with whitespace |
| Text.CollapseNoAdjacentSpaces | crawler/article.py:293 | after collapsing, no two whitespace characters stand side by side |
| Text.CollapseKeepsWords | crawler/article.py:293 | collapsing creates no new occurrence of a whitespace-free word |
| Text.CollapseChars | crawler/article.py:293 | collapsing adds no character but the single space |
| Text.CollapseWord | crawler/article.py:293 | a leading word without whitespace passes through the collapse unchanged |
| Text.CollapseJoinedWords | crawler/article.py:292-293 | non-empty whitespace-free words joined by single spaces are left as they are |
| Text.JoinKeepsWords | crawler/article.py:292 | a whitespace-free word in pieces joined by ' ' lies within one piece |
| Text.JoinChars | crawler/article.py:292 | joining adds no character but those of the separator |
| Text.Filter | crawler/article.py:282-283 | the comprehension keeps exactly the elements that pass, and adds none |
| Text.FilterAppend | crawler/article.py:282-291 | filtering a concatenation is concatenating the filtered parts, so the order of survivors is kept |
| Text.FilterOne | crawler/article.py:282-291 | a one-element list keeps its element exactly when it passes |
| Text.RemoveAll | crawler/article.py:406-407 | re.sub never lengthens the string |
| Text.RemoveHtmlSuffix | crawler/article.py:406-407 | removing '.html' from x + '.html' gives x back when x holds none of its own |
| Text.ParseDecimal | crawler/article.py:359 | on what the `\d` groups capture (crawler/article.py:356, crawler/article_index.py:103, crawler/user.py:190), a string of ASCII digits, int() succeeds exactly when it is non-empty |
| Text.ParseDecimalSnoc | crawler/article.py:359 | a further digit multiplies the value by ten and adds the digit |
| Text.ParseDecimalAppend | crawler/article.py:359 | the value of a + b is a's value shifted by |b| decimal places plus b's |
| Text.DecimalText | crawler/article.py:359 | the decimal rendering of a number is a non-empty digit string without a leading zero |
| Text.ParseDecimalText | crawler/article.py:359 | int() reads the decimal rendering of every n back as n |
| Text.Pad2 | export.py:101 | two digits whose value is the number |
| OutputConfig.OutputsOf | crawler/article.py:74-85 | JSON output exactly for "both" or "json", database output exactly for "both" or "database"; with no Output key, or another value, neither |
| Batches.FullBatchesShape | crawler/article.py:477-494 | every written batch holds exactly 20 records, fewer than 20 are left over, and the batches followed by the rest are the records in order |
| Batches.BatchesSnoc | crawler/article.py:477-494 | one more record completes a batch exactly when the rest reaches the batch size |
| Batches.ConcatSnoc | crawler/article.py:477-494 | joining one more batch appends it |
| ArticleWalk.StartDateRange | crawler/article.py:48-50 | without --index the walk covers pages 1 to n + 1, n being the page the front page's first '‹' link names |
| ArticleWalk.StartDateRangeWithoutLink | crawler/article.py:48-50 | a front page without that link gives the range 1 to 1 |
| ArticleWalk.EntriesOf | crawler/article.py:404-408 | one tuple per link: its web id, its absolute link and the page number |
| ArticleWalk.EntriesOfCons | crawler/article.py:398-413 | the tuples of h followed by links are that of h, then those of the links |
| ArticleWalk.PageLinksEntries | crawler/article.py:397-413 | a scan that does not raise yields one tuple per readable r-ent div before the first separator, in page order, and binds `link` exactly when one exists or it was bound |
| ArticleWalk.PageLinksRaises | crawler/article.py:398-411 | a page whose divs before the separator are all readable never raises; a class-less div there always raises |
| ArticleWalk.ScanLinks | crawler/article.py:397-413 | the loop yields the scan's tuples and binding, or raises as the scan does |
| ArticleWalk.ParsedList | crawler/article.py:416-429 | no more results than entries |
| ArticleWalk.ParseEntry | crawler/article.py:417-429 | at most one result, and a record carries the crawled board and the entry's id and link |
| ArticleWalk.ParsedListRecords | crawler/article.py:416-429 | every record parsed for a page comes from one of its entries, on the crawled board |
| ArticleWalk.ParseAll | crawler/article.py:416-429 | the loop's results are ParsedList's |
| ArticleWalk.ParseOne | crawler/article.py:418-429 | one try of the loop: the entry's parse result or nothing |
| ArticleWalk.ParsedListStep | crawler/article.py:416-429 | the results of the entries from i are those of entry i followed by those after it |
| ArticleWalk.ShiftShift | crawler/article.py:433-445 | shifting twice is shifting by the sums |
| ArticleWalk.DateFilter | crawler/article.py:431-445 | the records kept and the unreadable dates together never exceed the page's results |
| ArticleWalk.DateFilterRaises | crawler/article.py:434-445 | the filter raises exactly when the page holds an error dictionary |
| ArticleWalk.DateFilterKeeps | crawler/article.py:434-439 | otherwise it keeps, in order, the records dated on or after the start date |
| ArticleWalk.DateFilterCounts | crawler/article.py:431-447 | kept records and unreadable dates make up the page exactly when no record is early |
| ArticleWalk.NarrowMeaning | crawler/article.py:431-449 | a page narrows the range exactly when a start date is given and a record is dated earlier, and then hands on only the records dated on time; otherwise all its results go on, unreadable dates included |
| ArticleWalk.FilterByDate | crawler/article.py:431-449 | the loop hands on what Narrow states |
| ArticleWalk.ShiftNothing | crawler/article.py:433-445 | shifting by nothing changes nothing |
| ArticleWalk.DescendingCons | crawler/article.py:372-457 | a page's run in front of the runs of the pages below keeps them descending |
| ArticleWalk.ListedPage | crawler/article.py:408 | every tuple of a listed page carries its page number |
| ArticleWalk.ArgWalkPages | crawler/article.py:370-457 | the walk visits the pages from the end downwards, one run per page, never below the range |
| ArticleWalk.ArgWalkCovers | crawler/article.py:370-457 | a walk that finishes with a last run that did not narrow the range has one run for every page of the range |
| ArticleWalk.NarrowedLastCons | crawler/article.py:447-448 | a narrowing run followed by nothing keeps narrowing last |
| ArticleWalk.ArgWalkNarrowedLast | crawler/article.py:447-457 | only the last run can narrow the range, and the walk then finishes |
| ArticleWalk.ArgWalkBelow | crawler/article.py:372 | below the start of the range the walk is over |
| ArticleWalk.ArgWalkStep | crawler/article.py:372-457 | a walk that finished listed its first page and handed a list on, then finished below it with one run fewer and the same last run; a run that narrowed the range is the only one |
| ArticleWalk.ArgAdvance | crawler/article.py:372-457 | one more page either raises while listing, or adds its run and raises in the filter, or goes on from the page below with the start moved when the run narrowed |
| ArticleWalk.DoneThenRun | crawler/article.py:372-457 | the runs done so far, then this page's run, then the rest |
| ArticleWalk.StartAfterSnoc | crawler/article.py:447-448 | a narrowing run moves the start to its page; any other leaves it |
| ArticleWalk.ArticleLinkWebId | crawler/article.py:480-484 | the link built for a stored index row gives back the row's web id |
| ArticleWalk.BoardArticleIds | crawler/article.py:464-466 | exactly the web ids of the board's stored articles |
| ArticleWalk.Selected | crawler/article.py:468-475 | with --upgrade every index row when the board has a stored article and none otherwise; without it exactly the index rows, of any board, whose web id the board has not stored |
| ArticleWalk.BoardName | crawler/article.py:481 | a name exactly when a board of that id is stored |
| ArticleWalk.DbParseOne | crawler/article.py:480-488 | a record carries the row's web id and the crawled board |
| ArticleWalk.DbParsedRows | crawler/article.py:477-494 | one result per row up to the row that raised, each record carrying its row's web id and the crawled board; without a raise every row is parsed |
| ArticleWalk.DbProgressStep | crawler/article.py:479-490 | a row that raises ends the crawl with what was read; any other adds its result |
| ArticleWalk.DbProgressEnd | crawler/article.py:479-494 | at the end of the rows, or once a row raised, the results read are the whole crawl |
| ArticleWalk.BatchedSnoc | crawler/article.py:490-494 | one more result keeps the pending batch at no more than 20, and a batch of 20 is written and emptied |
| ArticleWalk.ArticleCrawler.constructor | crawler/article.py:30-85 | the output flags come from the Output key; the range is (0, 0) from the database, the --index pair, or 1 to the last page |
| ArticleWalk.ArticleCrawler.Crawl | crawler/article.py:361-366 | the database crawl exactly when --database was given, with the database writer's report for every run or batch written |
| ArticleWalk.ArticleCrawler.CrawlFromArg | crawler/article.py:368-458 | the runs are those of ArgWalk, up to a page whose index rows could not be written; start_index ends at the page of the run that narrowed the range; for every run the writer reports on the list it was handed, one outcome per record unless the last aborted the rest, and nothing without the database output |
| ArticleWalk.ArticleCrawler.ArgPage | crawler/article.py:373-457 | one pass of the loop advances the walk by one page, or ends it as the walk does |
| ArticleWalk.ArticleCrawler.ArgRun | crawler/article.py:416-455 | the page's run is RunOf; start_index moves to the page exactly when the run narrowed the range; the writer's report on the run's list is recorded |
| ArticleWalk.ArticleCrawler.WriteIndex | crawler/article.py:103-114 | fails exactly for an unusable session or a missing board with entries, leaving every table as it was; otherwise the index rows are merged by web id under the board's id and committed, and no other table changes |
| ArticleWalk.ArticleCrawler.WriteArticles | crawler/article.py:450-452 | with the database as an output, the writer's outcomes for the list, one per record unless the last aborted the rest (all aborted for an unusable session); without it nothing is written |
| ArticleWalk.ArticleCrawler.MoveStart | crawler/article.py:448 | start_index becomes the page and nothing else changes |
| ArticleWalk.ArticleCrawler.ListPage | crawler/article.py:379-413 | the page is listed as Listed states |
| ArticleWalk.ArticleCrawler.RunPage | crawler/article.py:416-449 | the page's run is RunOf |
| ArticleWalk.ArticleCrawler.CrawlFromDb | crawler/article.py:460-494 | a missing board raises with nothing written; otherwise the selected rows are parsed in order and only full batches of 20 are written, a trailing smaller batch never; for every batch the writer reports one outcome per record unless the last aborted the rest |
| ArticleWalk.ArticleCrawler.ParseInBatches | crawler/article.py:477-494 | the batches written are the full batches of 20 of the parse results |
| ArticleWalk.ArticleCrawler.DbRow | crawler/article.py:480-494 | one pass of the loop keeps the progress and the batching |
| ArticleWalk.ArticleCrawler.DbParse | crawler/article.py:480-488 | the row's parse is DbParseOne |
| ArticleWalk.ArticleCrawler.WriteBatch | crawler/article.py:490-494 | the writer's outcomes for a full batch, one per record unless the last aborted the rest (all aborted for an unusable session) |
| UserCrawler.IdList | crawler/user.py:164-165 | no ids for a missing or empty --id; otherwise comma-free pieces that, joined by commas, give the argument back |
| UserCrawler.Query | crawler/user.py:188-205 | raises exactly when some id's screen does not match the pattern; otherwise one result per id, in order, holding the id and the four captured strings |
| UserCrawler.UserOf | crawler/user.py:120-125 | a user exactly when int() reads both counters, carrying the result's username |
| UserCrawler.UsersOf | crawler/user.py:118-128 | the users of the first n results, in order |
| UserCrawler.OutcomesStop | crawler/user.py:117-148 | the loop stops at the first result whose counters are not numbers or whose login time does not read; every result before it left one record |
| UserCrawler.OutcomesHalt | crawler/user.py:117-148 | the loop raises exactly when some result cannot be stored |
| UserCrawler.OutcomesConsumed | crawler/user.py:117-148 | one record per result up to the one that raised |
| UserCrawler.OutcomesLogins | crawler/user.py:141-148 | the k-th record carries the k-th result's login time, as read, and its address |
| UserCrawler.UsersOfPrefix | crawler/user.py:118-129 | the users of the first n results do not depend on the later ones |
| UserCrawler.UsersMergedUpsert | crawler/user.py:120-129 | a result whose counters are numbers merges its user, whether or not its login time reads |
| UserCrawler.UsersMergedStep | crawler/user.py:118-148 | one more result keeps the user table merged |
| UserCrawler.OutcomesUsers | crawler/user.py:117-148 | the user table is every result that reached it merged in order by username, creating the user or overwriting its counters |
| UserCrawler.MergedLatest | crawler/user.py:120-129 | the row named by a result holds its counters unless a later result names the same user |
| UserCrawler.LatestOfObjects | crawler/user.py:120-129 | the same fact, stated on the users of the results |
| UserCrawler.MergedKept | crawler/user.py:120-129 | rows no result names are unchanged |
| UserCrawler.MergedCounters | crawler/user.py:117-148 | a merged table has the latest counters written and the other rows kept |
| UserCrawler.OutcomesCounters | crawler/user.py:117-148 | with usernames unique, the loop writes each named user's latest counters and keeps every other row |
| UserCrawler.LoginsOwnedUpsert | crawler/user.py:120-145 | merging a user keeps every row's id and key, so each earlier record still points at its user |
| UserCrawler.LoginsOwnedStep | crawler/user.py:118-148 | one more result keeps every record pointing at its user |
| UserCrawler.OutcomesOwned | crawler/user.py:117-148 | every record points at the row of the username its result names, and usernames stay unique |
| UserCrawler.OutcomesHalted | crawler/user.py:117-148 | once a result raised the rest change nothing |
| UserCrawler.Step | crawler/user.py:118-148 | a loop that raised stays as it was; the loop goes on after a result exactly when that result can be stored |
| UserCrawler.Outcomes | crawler/user.py:117-148 | the user table only grows, by at most one row per result, and the counter moves on by the number of rows added |
| UserCrawler.StepUpserts | crawler/user.py:118-148 | a result with a user name merges that user into the table by user name; one last-login row is added when the loop goes on, none when the date read raises |
| UserCrawler.LoggedSnoc | crawler/user.py:143-148 | one more record is appended with the next id and a later created_at |
| UserCrawler.NamedIsKey | models/base.py:54-65 | get_or_create looks users up by username as the merge does |
| UserCrawler.UserCrawler.constructor | crawler/user.py:62-81 | the output flags come from the Output key; both off for any other value |
| UserCrawler.UserCrawler.CountUser | crawler/user.py:120-129 | the user is created with its counters, or its counters are overwritten and committed; its id is returned |
| UserCrawler.UserCrawler.AddRecord | crawler/user.py:143-148 | one last-login row with the user's id, login time and address is appended and committed, stamped with the clock |
| UserCrawler.UserCrawler.StoreOne | crawler/user.py:119-148 | one pass of the loop makes the tables what Step states |
| UserCrawler.UserCrawler.OutputDatabase | crawler/user.py:117-148 | the user table and the last-login records end up as Outcomes states, raising exactly where it halts |
| UserCrawler.UserCrawler.Go | crawler/user.py:157-209 | an unmatched screen raises with nothing stored; otherwise one result per id, stored only when the output includes the database |
| AsnCrawler.Refresh | crawler/asn.py:38-40 | merging a result sets its address and keeps the row's asn_raw, which no result sets |
| AsnCrawler.RefreshOverwrites | crawler/asn.py:38-40 | the merge keeps the key and overwrites every column a result sets |
| AsnCrawler.ResultOf | crawler/asn.py:49-54 | a result exactly when the lookup succeeds and its asn_date reads; it carries the address, the lookup's columns and the date as read |
| AsnCrawler.ResultsMeaning | crawler/asn.py:47-55 | one result per address, in order, up to the first address that raises; with none raising, one for every address |
| AsnCrawler.ResultsRaise | crawler/asn.py:47-55 | go raises exactly when some address does, and the k-th result is about the k-th address |
| AsnCrawler.FlushesShape | crawler/asn.py:47-61 | every batch handed over in the loop holds exactly 100 results; without a raise the last holds the fewer than 100 left over and the batches joined are all the results; after a raise the results since the last hundred are never handed over |
| AsnCrawler.StoredByIp | crawler/asn.py:38-40 | with unique addresses, each handed-over address's row shows its latest result's columns, and rows of other addresses are unchanged |
| AsnCrawler.FedStep | crawler/asn.py:48-55 | one more address adds its result or raises |
| AsnCrawler.FedRaise | crawler/asn.py:48-55 | an address whose lookup raises ends the loop with nothing more gathered or handed over |
| AsnCrawler.FedSnoc | crawler/asn.py:48-59 | one more result joins the pending ones, and the hundredth hands the hundred over and empties them |
| AsnCrawler.FedEnd | crawler/asn.py:48-61 | when the loop ends it has gathered and handed over what the whole list gives |
| AsnCrawler.ResultsRaised | crawler/asn.py:48-55 | after an address raised, the addresses after it change nothing |
| AsnCrawler.Results | crawler/asn.py:47-55 | at most one result per address, and one for every address when none raised |
| AsnCrawler.Flushes | crawler/asn.py:47-61 | without a raise at least the final batch is handed over |
| AsnCrawler.RejectsCall | utils.py:24-38 | the wrapper left by `@log()` takes any call; the inner decorator left by a bare `@log` rejects a call with any argument besides the instance |
| AsnCrawler.BareLogDiffers | crawler/asn.py:38-43 | on any address whose lookup succeeds, go under `@log()` hands its result over, while go under the bare `@log` rejects the call |
| AsnCrawler.AsnCrawler.constructor | crawler/asn.py:16-27 | the input mode and a session on ip_asn |
| AsnCrawler.AsnCrawler.IpList | crawler/asn.py:29-36 | every stored address, in table order, in database mode; otherwise --ip-list split at commas |
| AsnCrawler.AsnCrawler.GoAsWritten | crawler/asn.py:42-43 | go as declared raises at the call, before any lookup, and nothing is handed over or stored |
| AsnCrawler.AsnCrawler.OutputDb | crawler/asn.py:38-40 | under `@log()`, the batch is merged by address and committed |
| AsnCrawler.AsnCrawler.Go | crawler/asn.py:42-61 | under `@log()`, the batches handed over are Flushes of the address list, go raises as Results does, and the table is every batch merged in order |
| AsnCrawler.AsnCrawler.Feed | crawler/asn.py:48-59 | one address of the loop keeps the loop state and the table in step |
| AsnCrawler.AsnCrawler.Flush | crawler/asn.py:57-61 | the table holds every batch so far merged in order |
| ExportRows.HeaderWidths | export.py:46-56 | the article, comment and user headers have 14, 12 and 11 names |
| ExportRows.HeaderRow | export.py:46-56 | the header row holds the column names, in order |
| ExportRows.CountCell | export.py:114 | a counter that is unset or 0 becomes '', any other stays a number |
| ExportRows.PushTimeText | export.py:97-103 | '' for no time; otherwise "MM/DD 00:MM:SS", the stored hour always being 0 |
| ExportRows.ById | export.py:64 | the row with that primary key, or None exactly when no row has it |
| ExportRows.AddressRow | export.py:69-70 | the ip_asn row of the address; None for an unset address or one without a row |
| ExportRows.ArticleAsnCells | export.py:71-76 | seven cells; without an ip_asn row, the article's own address and six blanks |
| ExportRows.ArticleRow | export.py:62-81 | a row exactly when the board and the author load; 14 cells opening with the web id, then board, author, title, content, the address cells, post time and end time |
| ExportRows.PushAsnCells | export.py:87-95 | seven cells; without an ip_asn row, the comment's own address and six blanks |
| ExportRows.PushRow | export.py:83-105 | a row exactly when the commenter loads; 12 cells opening with the article's web id and ending with the comment time |
| ExportRows.Blank | export.py:120 | a row of n empty strings |
| ExportRows.LatestRecord | export.py:110-111 | the user's newest login record; None exactly when the user has none |
| ExportRows.UserAsnCells | export.py:116-118 | six address columns |
| ExportRows.UserCells | export.py:108-121 | eleven blanks for a user without a record; otherwise username, counters, login time and address, and six columns of its ip_asn row, failing exactly when that row is missing |
| ExportRows.Zip | export.py:138-147 | the names paired with the cells, in order |
| ExportRows.ZipAll | export.py:137-219 | every row paired with the names |
| ExportRows.ZipAppend | export.py:138-147 | pairing distributes over joining names and cells |
| ExportRows.ArticleAsnJsonAgrees | export.py:149-166 | the article's address keys and values pair the sheet's address cells with their names |
| ExportRows.ArticleJsonAgrees | export.py:137-175 | an article's dict exists exactly when its sheet row does, and holds its cells under the header's names in order |
| ExportRows.PushAsnJsonAgrees | export.py:187-208 | the comment's address keys and values pair the sheet's cells with their names |
| ExportRows.PushJsonAgrees | export.py:177-219 | a comment's dict exists exactly when its sheet row does, and holds its cells under the header's names |
| ExportRows.UserJsonAgrees | export.py:224-239 | for a user with a record, the dict holds the sheet row's cells under the header's names |
| ExportRows.UnrecordedUserJson | export.py:240-252 | a user without a record keeps the username in the dict where the sheet row has '' |
| ExportSheets.Collect | export.py:62-121 | a result for every element, in order, exactly when none fails |
| ExportSheets.ListedStampsValid | models/article.py:73-74 | the comments of a version are stored comments, so their times are valid |
| ExportSheets.ArticleBlock | export.py:62-105 | an article without a version fails; otherwise its row from history[0] and its comment rows |
| ExportSheets.ArticleOrder | export.py:59-60 | the articles, permuted, earliest post first |
| ExportSheets.Firsts | export.py:81 | the first components, in order |
| ExportSheets.Seconds | export.py:105 | the second components, in order |
| ExportSheets.AssembleJson | export.py:254-256 | the three lists as collected |
| ExportSheets.ConcatWidth | export.py:83-105 | joined groups of n-wide rows stay n wide |
| ExportSheets.ArticleSheet | export.py:46-81 | the header, then one row per article in post_datetime order, built from the article and its latest version |
| ExportSheets.ArticleSheetWidth | export.py:46-81 | every row of the article sheet is 14 cells wide |
| ExportSheets.PushSheet | export.py:50-105 | the comment sheet opens with its header and every row is 12 cells wide |
| ExportSheets.ConsWidth | export.py:105 | a row of width n in front keeps the rows n wide |
| ExportSheets.PushGroupWidth | export.py:83-105 | each comment row of a version is 12 cells wide |
| ExportSheets.UserSheet | export.py:53-121 | the header, then one row per user in table order |
| ExportSheets.UserSheetWidth | export.py:53-121 | every row of the user sheet is 11 cells wide |
| ExportSheets.CollectFailsAnyOrder | export.py:62-121 | whether collecting fails does not depend on the order |
| ExportSheets.ArticlesFail | export.py:62-105 | the article sheet fails exactly when some article fails |
| ExportSheets.UsersFail | export.py:107-121 | the user sheet fails exactly when some user's row fails |
| ExportSheets.ReportFails | export.py:44-125 | the report fails exactly when some article has no version or a failing lookup, or some user's last address has no ip_asn row |
| ExportSheets.Report | export.py:44-125 | a report that does not fail has a header and one row per stored article in the article sheet, a header first in the comment sheet, and a header and one row per user in the user sheet |
| ExportSheets.JsonReport | export.py:127-258 | a JSON report that does not fail has one dict per stored article and one per user |
| ExportSheets.PushRowsFail | export.py:83-105 | a version's comment rows fail exactly when some commenter is missing |
| ExportSheets.ListedPushRowsFail | export.py:83-105 | each listed comment fails exactly when its commenter is missing |
| ExportSheets.ArticleBlockFails | export.py:62-105 | an article with a version fails exactly when its board or author is missing or a commenter on its latest version is |
| ExportSheets.ZipAllAppend | export.py:137-219 | pairing distributes over joining rows |
| ExportSheets.ConcatZipAll | export.py:177-219 | joining groups of dicts is pairing the joined groups of rows |
| ExportSheets.PushJsonsAgree | export.py:177-219 | a version's comment dicts are its comment rows paired with the names |
| ExportSheets.ArticleJsonBlockAgrees | export.py:137-219 | an article's dicts are its rows paired with the names |
| ExportSheets.CollectPaired | export.py:137-253 | collections whose elements fail together fail together and keep the pairing |
| ExportSheets.JsonBlocksAgree | export.py:137-219 | the article blocks of both exports fail together and pair up |
| ExportSheets.JsonArticlesAgree | export.py:127-219 | _get_export_json and _get_export_rows agree on articles and comments: they fail together, and each dict is the sheet row under the header's names |
| ExportSheets.UserJsonPaired | export.py:222-253 | a user's dict exists exactly when its row does, and pairs with it |
| ExportSheets.JsonUsersAgree | export.py:221-253 | each user's dict is the sheet row under the names, but a user without a record keeps the username |
| ExportSheets.UserJsonsFail | export.py:221-253 | the user dicts fail exactly when the user rows do |
| ExportSheets.AssembledPaired | export.py:122-124 | sheets and lists assembled from paired parts pair up |
| ExportSheets.JsonReportAgrees | export.py:44-258 | the JSON report fails exactly when the sheets do, and otherwise holds the sheets' rows, headers left out, paired with the names |
| ExportHelper.FormatOf | export.py:18-21 | ExportFormat[name] succeeds exactly for "ods", "csv" and "json", and the format's name is the name given |
| ExportHelper.PathJoin | export.py:266 | os.path.join of a folder and a file name |
| ExportHelper.SheetName | export.py:277-281 | prefix + "Ptt_" + sheet + "_report_" + date + ".csv" |
| ExportHelper.ReportName | export.py:264-267 | the name starts with the prefix and ends with "." and the format's name |
| ExportHelper.Outputs | export.py:260-309 | ods and json write one file, holding the sheets or the JSON report; csv writes nothing exactly when the report failed, and otherwise three files |
| ExportHelper.CsvFiles | export.py:276-285 | three files holding the article, comment and user rows, in that order |
| ExportHelper.PathJoinEndsWithName | export.py:266 | the joined path ends with the file name |
| ExportHelper.NamesDiffer | export.py:279 | different names give different paths in the same folder |
| ExportHelper.CsvPathsDistinct | export.py:276-281 | the three csv paths are pairwise distinct |
| ExportHelper.NameExtensions | export.py:264-294 | every report name ends with "." and the format's name |
| ExportHelper.OutputsWritten | export.py:260-309 | every path ends with the format's extension; ods and json write one file with the data; csv writes nothing exactly when the data failed, and otherwise three files with the three sheets |
| ExportHelper.SuffixOfSuffix | export.py:266 | a suffix of a suffix is a suffix |
| ExportHelper.PttExportHelper.constructor | export.py:24-26 | no format yet |
| ExportHelper.PttExportHelper.InitHelper | export.py:28-42 | raises exactly for an unknown format, before the folder and the prefix are set; otherwise sets all three |
| ExportHelper.PttExportHelper.Go | export.py:298-309 | an unknown format aborts with nothing written; otherwise the files written are Outputs of the format, the folder, the prefix, the date and the two reports |
| ExportHelper.PttExportHelper.WriteReport | export.py:302-309 | the files of the format the helper was set up with are Outputs of that format and the two reports |
| ExportHelper.PttExportHelper.WriteSheets | export.py:276-285 | the csv files are CsvFiles of the sheets, in order |
| ExportHelper.PttExportHelper.GetExportRows | export.py:44-125 | the loops build exactly Report |
| ExportHelper.PttExportHelper.GetExportJson | export.py:127-258 | the loops build exactly JsonReport |
| ExportHelper.ExportArticle | export.py:62-105 | one pass over an article builds its block and appends its rows |
| ExportHelper.ExportArticleJson | export.py:137-219 | one pass over an article builds its JSON block and appends its dicts |
| ExportHelper.AppendRows | export.py:83-105 | the loop appends the rows of every element exactly when none fails |
| ExportHelper.CollectStep | export.py:62-121 | one more element extends the collection or makes it fail |
| ExportHelper.AppendAssoc | export.py:105 | appending a row after a group is appending the group with the row |
| ExportHelper.NoLead | export.py:129-131 | lists that start empty are what was appended |
| ExportHelper.BlockStep | export.py:81-105 | one more article block appends its row and its comment rows |

## Left out

- Network access, cookies, request headers and timeouts, and every `time.sleep` delay: pages, user pages and lookup answers are inputs of the walks, so the model says nothing about rate limiting.
- BeautifulSoup: an article page, an index page and a user page are given already cut into the parts the code looks up (spans, divs, meta lines); finding them in HTML is not modelled.
- `datetime.strptime`/`strftime` for article dates and the rebroadcast regular expression are opaque functions of a `Formats` parameter; only the push time format `%m/%d %M:%S` is written out.
- Text.ParseDecimal: int() also accepts surrounding whitespace, a sign and underscores; the model refuses them, since every string it reads is a `\d` capture.
- Text.IsWordChar: Python's `\w` (a Unicode letter or number, or `_`) is approximated by ASCII letters, digits and `_`, the Latin-1 letters and numerals, and every code point from U+0100 up except six punctuation and symbol blocks; other symbols and marks above U+00FF, such as U+1F600 or U+0301, count as word characters here but not in Python. `\d` and `int()` take ASCII digits only, so other Unicode decimal digits such as U+FF11 are not read.
- JSON output of the crawlers and of the export (key sorting, file names, `json.dump`), csv writing and pyexcel spreadsheet writing: the model stops at the rows and the per-file outputs handed to them.
- Configuration loading, command-line parsing, log setup and `os.makedirs`; `schedule.py`, `query.py`, `utils.py` apart from the exception-swallowing behaviour of `log`, and the Alembic migrations are not part of this model.
- Selenium and the login wait loop of `crawler/user.py`: the user crawler receives the pages the browser would show.
- ipwhois: the ASN crawler receives the lookup as a function of the ip address.
- SQLAlchemy internals: identity map, autoflush and the uniquing of query results are replaced by explicit table rows, a merge by primary key and ordered selections; the declaration of `ArticleIndex` is not part of this model and its primary key is taken to be `web_id`.
- Concurrency: a single crawler runs against a session at a time.
- Store.Session.Now: `datetime.now()` is a reading of a counter that never decreases from one reading to the next, not wall-clock time; Store.Clock.Read states the same.
- IndexWalk.IndexCrawler.constructor: the two requests for the last page that `__init__` makes through `_getLastPage` (crawler/article_index.py:45 or 53, and 54) are taken as one answer.
- ArticleWalk.ArticleCrawler.CrawlFromDb: the board rows are read once before the loop; the writes of the loop never delete a board, so this does not change which board is found.
- ArticleWalk.ArticleCrawler.CrawlFromArg and ArticleWalk.ArticleCrawler.CrawlFromDb state, run by run and batch by batch, what the database writer reported; the table contents after each single write are stated by ArticleSync.OutputIndex and ArticleSync.OutputDatabase, and are not composed into one statement over a whole walk.
- ArticleWalk.Selected: the query without --upgrade hands `notin_` the list of one-column result rows that `exist_article_list` holds; the model takes those rows as the web ids they carry and does not model how SQLAlchemy binds such rows, which may raise once the board has stored articles (under `@log()` that would end `_crawling_from_db` before any parse).
- AsnCrawler.AsnCrawler.Go: states go as it would run under `@log()`; as written, under a bare `@log`, the call raises `TypeError` and nothing runs (AsnCrawler.AsnCrawler.GoAsWritten, "## Findings").
- AsnCrawler.AsnCrawler.OutputDb: states `_output_db` as it would run under `@log()`; as written it is never reached, since go raises at the call.
- AsnCrawler.ResultsRaise: states the loop of go as it would run under `@log()`; as written go raises `TypeError` before the loop, so no address is looked up.
- AsnCrawler.AsnCrawler.Go: in database mode the ip addresses are taken in table order (the query has no ORDER BY).
- ExportHelper.PttExportHelper.Go: one `today` string is used for every file of a run, and the export reads a `Snapshot` value of the tables rather than the live session; `str()` of a stored datetime is the opaque parameter `show`.
- ExportRows.PushRow: the branch of `export.py:98-100` that re-parses a `push_datetime` stored as a string is not modelled; stored comment times are assumed to be real dates (`StampsValid`).
- ExportSheets: articles with equal sort keys keep table order; the order the database would return for ties is not modelled.
- The page status check models `raise_for_status` as raising only for status codes 400 to 599, as `requests` does; other non-200 codes are logged and the page is processed.

## Findings

| source | as written | input that shows it | evidently intended | confidence | as-written member | corrected member |
|---|---|---|---|---|---|---|
| crawler/asn.py:38-43 | go and `_output_db` are decorated with a bare `@log`, which leaves them bound to the one-parameter inner decorator of `log` (utils.py:24-38); `crawler.go(args)` passes it two arguments and raises `TypeError`, so nothing is looked up or stored | any address whose lookup succeeds, e.g. `--ip-list` naming one reachable address (AsnCrawler.BareLogDiffers) | `@log()`, as on every other decorated method of the crawlers | not executed | AsnCrawler.AsnCrawler.GoAsWritten | AsnCrawler.AsnCrawler.Go |
