/**
 * What both crawlers read off a board's listing page (/bbs/<board>/index<n>.html):
 * the child divs of the list container, the web id in an article link, and the
 * page number of the "‹" (previous page) button on the board's front page.
 */
module Listing {
  import opened Wrappers
  import opened Text

  const PttUrl := "https://www.ptt.cc"

  /**
   * One child div of the list container: its class list (None when the div has no
   * class attribute, so that div['class'] raises) and the href of its first anchor
   * (None when there is no anchor or it has no href).
   */
  datatype Div = Div(classes: Option<seq<string>>, href: Option<string>)

  /** A fetched listing page: the status code and the list container's child divs (None: no container). */
  datatype IndexResponse = IndexResponse(status: int, container: Option<seq<Div>>)

  /** resp.raise_for_status() raises for client and server errors only. */
  predicate RaisesForStatus(status: int): (r: bool)
    ensures r <==> status / 100 == 4 || status / 100 == 5
  {
    400 <= status < 600
  }

  predicate IsSep(d: Div) {
    d.classes.Some? && "r-list-sep" in d.classes.value
  }

  /** An article entry whose link can be read. */
  predicate IsReadableEntry(d: Div) {
    d.classes.Some? && "r-list-sep" !in d.classes.value && "r-ent" in d.classes.value && d.href.Some?
  }

  /** The children before the first separator: the ones the loop looks at. */
  function BeforeSep(ds: seq<Div>): (r: seq<Div>)
    ensures |r| <= |ds| && r == ds[..|r|]
    ensures forall k | 0 <= k < |r| :: !IsSep(r[k])
    ensures |r| < |ds| ==> IsSep(ds[|r|])
  {
    if ds == [] || IsSep(ds[0]) then []
    else [ds[0]] + BeforeSep(ds[1..])
  }

  /** The hrefs of the readable entries among ds, in page order. */
  function EntryLinks(ds: seq<Div>): (r: seq<string>)
    ensures |r| <= |ds|
  {
    if ds == [] then []
    else if IsReadableEntry(ds[0]) then [ds[0].href.value] + EntryLinks(ds[1..])
    else EntryLinks(ds[1..])
  }

  /** Puts `front` ahead of the entries of a successful scan; a scan that raised stays raised. */
  function Prepend<T>(front: seq<T>, r: Option<(seq<T>, bool)>): Option<(seq<T>, bool)> {
    match r
    case None => None
    case Some((es, b)) => Some((front + es, b))
  }

  lemma PrependNothing<T>(r: Option<(seq<T>, bool)>)
    ensures Prepend([], r) == r
  {
    if r.Some? {
      assert [] + r.value.0 == r.value.0;
    }
  }

  lemma PrependAppend<T>(a: seq<T>, b: seq<T>, r: Option<(seq<T>, bool)>)
    ensures Prepend(a, Prepend(b, r)) == Prepend(a + b, r)
  {
    if r.Some? {
      assert a + (b + r.value.0) == (a + b) + r.value.0;
    }
  }

  // ---------------------------------------------------------------- re.sub('\.html', '', href.split('/')[-1])

  /** The web id of an article link: its last path segment with every ".html" removed. */
  function WebIdOf(href: string): string {
    var parts := Split(href, '/');
    RemoveAll(parts[|parts| - 1], ".html")
  }

  /** The link of an article, /bbs/<board>/<id>.html, gives back the id. */
  lemma WebIdOfLink(dir: string, id: string)
    requires '/' !in id && !Contains(id, ".html")
    ensures WebIdOf(dir + "/" + id + ".html") == id
  {
    var q := id + ".html";
    assert '/' !in q by {
      assert forall k | 0 <= k < |q| :: q[k] == if k < |id| then id[k] else ".html"[k - |id|];
    }
    assert dir + "/" + id + ".html" == dir + ['/'] + q;
    SplitLast(dir, q, '/');
    RemoveHtmlSuffix(id);
  }

  // ---------------------------------------------------------------- href="/bbs/\w+/index(\d+).html">&lsaquo;

  const PrevHead := "href=\"/bbs/"
  const PrevTail := "html\">&lsaquo;"

  /** End of the run of \w characters starting at i. */
  function WordCharsEnd(s: string, i: nat): (e: nat)
    requires i <= |s|
    ensures i <= e <= |s|
    decreases |s| - i
  {
    if i < |s| && IsWordChar(s[i]) then WordCharsEnd(s, i + 1) else i
  }

  /** End of the run of digits starting at i. */
  function DigitsEnd(s: string, i: nat): (e: nat)
    requires i <= |s|
    ensures i <= e <= |s|
    ensures forall k | i <= k < e :: IsDigit(s[k])
    decreases |s| - i
  {
    if i < |s| && IsDigit(s[i]) then DigitsEnd(s, i + 1) else i
  }

  /**
   * The group (\d+) when the pattern matches at i. \w+ cannot give back characters
   * (the next one must be '/'), and \d+ can give back only its last digit, for the
   * '.' to match it right before "html".
   */
  function PrevPageAt(s: string, i: nat): (r: Option<string>)
    requires i <= |s|
    ensures r.Some? ==> ParseDecimal(r.value).Some?
  {
    if OccursAt(s, PrevHead, i) then PageAfterHead(s, i + |PrevHead|) else None
  }

  /** \w+/index(\d+).html">&lsaquo; from b. */
  function PageAfterHead(s: string, b: nat): (r: Option<string>)
    requires b <= |s|
    ensures r.Some? ==> ParseDecimal(r.value).Some?
  {
    var w := WordCharsEnd(s, b);
    if w > b && OccursAt(s, "/index", w) then PageDigits(s, w + 6) else None
  }

  /** (\d+).html">&lsaquo; from d. */
  function PageDigits(s: string, d: nat): (r: Option<string>)
    requires d <= |s|
    ensures r.Some? ==> ParseDecimal(r.value).Some?
  {
    var e := DigitsEnd(s, d);
    if e == d then None
    else if AnyThenTail(s, e) then Some(s[d..e])
    else if e - d >= 2 && OccursAt(s, PrevTail, e) then Some(s[d..e - 1])
    else None
  }

  /** `.html">&lsaquo;` matches at k: any character but a newline, then the literal tail. */
  predicate AnyThenTail(s: string, k: nat) {
    k < |s| && s[k] != '\n' && OccursAt(s, PrevTail, k + 1)
  }

  /** re.search: the leftmost match at or after i. */
  function PrevPageFrom(s: string, i: nat): (r: Option<string>)
    requires i <= |s|
    ensures r.Some? ==> ParseDecimal(r.value).Some?
    ensures r.None? <==> forall m | i <= m <= |s| :: PrevPageAt(s, m).None?
    decreases |s| - i
  {
    match PrevPageAt(s, i)
    case Some(g) => Some(g)
    case None => if i == |s| then None else PrevPageFrom(s, i + 1)
  }

  /** getLastPage / _getLastPage: the "‹" button's page number plus one, or 1 when there is none. */
  function LastPageOf(content: string): (r: int)
    ensures r >= 1
    ensures (forall m | 0 <= m <= |content| :: PrevPageAt(content, m).None?) ==> r == 1
  {
    match PrevPageFrom(content, 0)
    case None => 1
    case Some(g) => ParseDecimal(g).value + 1
  }

  /** The search returns the group of the leftmost position where the pattern matches. */
  lemma {:induction false} PrevPageFromLeftmost(s: string, i: nat, m: nat)
    requires i <= m <= |s| && PrevPageAt(s, m).Some?
    requires forall k | i <= k < m :: PrevPageAt(s, k).None?
    ensures PrevPageFrom(s, i) == PrevPageAt(s, m)
    decreases m - i
  {
    if i < m {
      assert PrevPageAt(s, i).None?;
      assert PrevPageFrom(s, i) == PrevPageFrom(s, i + 1);
      PrevPageFromLeftmost(s, i + 1, m);
    }
  }

  /** The page number comes from the leftmost "‹" link of the page. */
  lemma LastPageOfLeftmost(content: string, m: nat, g: string)
    requires m <= |content| && PrevPageAt(content, m) == Some(g)
    requires forall k | 0 <= k < m :: PrevPageAt(content, k).None?
    ensures LastPageOf(content) == ParseDecimal(g).value + 1
  {
    PrevPageFromLeftmost(content, 0, m);
  }

  lemma WordCharsEndOf(s: string, i: nat, n: nat)
    requires i + n <= |s| && (forall k | i <= k < i + n :: IsWordChar(s[k]))
    requires i + n == |s| || !IsWordChar(s[i + n])
    ensures WordCharsEnd(s, i) == i + n
    decreases n
  {
    if n > 0 {
      WordCharsEndOf(s, i + 1, n - 1);
    }
  }

  lemma DigitsEndOf(s: string, i: nat, n: nat)
    requires i + n <= |s| && (forall k | i <= k < i + n :: IsDigit(s[k]))
    requires i + n == |s| || !IsDigit(s[i + n])
    ensures DigitsEnd(s, i) == i + n
    decreases n
  {
    if n > 0 {
      DigitsEndOf(s, i + 1, n - 1);
    }
  }

  /** The pattern matches at i, with `board` as the \w+ part and `digits` as the (\d+) part. */
  lemma PrevPageAtMatch(s: string, i: nat, board: string, digits: string)
    requires board != [] && AllChars(board, IsWordChar) && digits != [] && AllChars(digits, IsDigit)
    requires OccursAt(s, PrevHead, i) && OccursAt(s, board, i + |PrevHead|)
    requires OccursAt(s, "/index", i + |PrevHead| + |board|)
    requires OccursAt(s, digits, i + |PrevHead| + |board| + 6)
    requires OccursAt(s, "." + PrevTail, i + |PrevHead| + |board| + 6 + |digits|)
    ensures PrevPageAt(s, i) == Some(digits)
  {
    var b := i + |PrevHead|;
    PageDigitsOf(s, b + |board| + 6, digits);
    PageAfterHeadOf(s, b, board, digits);
    assert PrevPageAt(s, i) == PageAfterHead(s, b);
  }

  lemma PageDigitsOf(s: string, d: nat, digits: string)
    requires digits != [] && AllChars(digits, IsDigit)
    requires OccursAt(s, digits, d) && OccursAt(s, "." + PrevTail, d + |digits|)
    ensures PageDigits(s, d) == Some(digits)
  {
    var e := d + |digits|;
    assert s[e] == ("." + PrevTail)[0];
    assert forall k | d <= k < e :: s[k] == digits[k - d];
    DigitsEndOf(s, d, |digits|);
    assert AnyThenTail(s, e) by {
      assert s[e + 1..e + 1 + |PrevTail|] == ("." + PrevTail)[1..];
    }
  }

  lemma PageAfterHeadOf(s: string, b: nat, board: string, digits: string)
    requires board != [] && AllChars(board, IsWordChar)
    requires OccursAt(s, board, b) && OccursAt(s, "/index", b + |board|)
    requires PageDigits(s, b + |board| + 6) == Some(digits)
    ensures PageAfterHead(s, b) == Some(digits)
  {
    var w := b + |board|;
    assert s[w] == '/' && !IsWordChar('/');
    assert forall k | b <= k < w :: s[k] == board[k - b];
    WordCharsEndOf(s, b, |board|);
    assert PageAfterHead(s, b) == PageDigits(s, w + 6);
  }

  /** The front page of a board, opening with the previous-page link of page `digits`. */
  function FrontPage(board: string, digits: string, rest: string): string {
    PrevHead + (board + ("/index" + (digits + (("." + PrevTail) + rest))))
  }

  /**
   * A page whose first "‹" link, after any text `pre` in which no match starts, is the
   * previous-page link of page `digits` yields that page number plus one.
   */
  lemma LastPageOfPrevLink(pre: string, board: string, digits: string, rest: string)
    requires board != [] && AllChars(board, IsWordChar)
    requires digits != [] && AllChars(digits, IsDigit)
    requires forall m | 0 <= m < |pre| :: PrevPageAt(pre + FrontPage(board, digits, rest), m).None?
    ensures LastPageOf(pre + FrontPage(board, digits, rest)) == ParseDecimal(digits).value + 1
  {
    var f := FrontPage(board, digits, rest);
    var s := pre + f;
    HeadOccurrences(board, digits, rest);
    TailOccurrences(board, digits, rest);
    OccursShift(pre, f, PrevHead, 0);
    OccursShift(pre, f, board, |PrevHead|);
    OccursShift(pre, f, "/index", |PrevHead| + |board|);
    OccursShift(pre, f, digits, |PrevHead| + |board| + 6);
    OccursShift(pre, f, "." + PrevTail, |PrevHead| + |board| + 6 + |digits|);
    PrevPageAtMatch(s, |pre|, board, digits);
    LastPageOfLeftmost(s, |pre|, digits);
  }

  lemma HeadOccurrences(board: string, digits: string, rest: string)
    ensures var s := FrontPage(board, digits, rest);
      OccursAt(s, PrevHead, 0) && OccursAt(s, board, |PrevHead|)
  {
    var t0 := board + ("/index" + (digits + (("." + PrevTail) + rest)));
    var s := PrevHead + t0;
    assert s[..|PrevHead|] == PrevHead;
    assert OccursAt(t0, board, 0);
    OccursShift(PrevHead, t0, board, 0);
  }

  lemma TailOccurrences(board: string, digits: string, rest: string)
    ensures var s := FrontPage(board, digits, rest);
      OccursAt(s, "/index", |PrevHead| + |board|)
      && OccursAt(s, digits, |PrevHead| + |board| + 6)
      && OccursAt(s, "." + PrevTail, |PrevHead| + |board| + 6 + |digits|)
  {
    var t1 := "/index" + (digits + (("." + PrevTail) + rest));
    var t0 := board + t1;
    IndexPartOccurrences(digits, rest);
    OccursShift(board, t1, "/index", 0);
    OccursShift(board, t1, digits, 6);
    OccursShift(board, t1, "." + PrevTail, 6 + |digits|);
    OccursShift(PrevHead, t0, "/index", |board|);
    OccursShift(PrevHead, t0, digits, |board| + 6);
    OccursShift(PrevHead, t0, "." + PrevTail, |board| + 6 + |digits|);
  }

  lemma IndexPartOccurrences(digits: string, rest: string)
    ensures var t1 := "/index" + (digits + (("." + PrevTail) + rest));
      OccursAt(t1, "/index", 0) && OccursAt(t1, digits, 6) && OccursAt(t1, "." + PrevTail, 6 + |digits|)
  {
    var t2 := digits + (("." + PrevTail) + rest);
    assert OccursAt(t2, digits, 0) && OccursAt(t2, "." + PrevTail, |digits|);
    OccursShift("/index", t2, digits, 0);
    OccursShift("/index", t2, "." + PrevTail, |digits|);
  }

  /** Without any "href=\"/bbs/" the pattern cannot match. */
  lemma {:induction false} NoPrevPageFrom(s: string, i: nat)
    requires i <= |s| && forall j | i <= j <= |s| :: !OccursAt(s, PrevHead, j)
    ensures PrevPageFrom(s, i).None?
    decreases |s| - i
  {
    if i < |s| {
      NoPrevPageFrom(s, i + 1);
    }
  }

  /** A page without the previous-page link counts as page 1. */
  lemma LastPageWithoutPrevLink(content: string)
    requires !Contains(content, PrevHead)
    ensures LastPageOf(content) == 1
  {
    NoPrevPageFrom(content, 0);
  }
}
