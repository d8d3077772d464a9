/**
 * ArticleCrawler.parse (crawler/article.py): one fetched article page becomes
 * a record of its header, cleaned body text, sender address and comments.
 *
 * The HTML tree is abstracted to the nodes parse looks at, in document order:
 * the header lines, the right-hand header lines, the comment blocks and every
 * other text string of #main-content. The rebroadcast-line pattern and the
 * datetime conversions are parameters (`Formats`); every other pattern parse
 * applies is written out as a matcher.
 */
module ArticleParse {
  import opened Wrappers
  import opened Text
  import opened Records

  // ---------------------------------------------------------------- the page

  /** A div.push: its tag span (if any), and the strings of its other three spans. */
  datatype PushDiv = PushDiv(tag: Option<string>, userid: string, content: seq<string>, ipdatetime: string)

  datatype Node =
    /** div.article-metaline, with the text of its first span.article-meta-value, if it has one. */
    | MetaLine(value: Option<string>)
    /** div.article-metaline-right and the strings inside it. */
    | MetaLineRight(texts: seq<string>)
    | PushBlock(push: PushDiv)
    /** Any other string of #main-content. */
    | TextNode(text: string)

  /** The response: its status code and, when the page has one, the nodes of #main-content. */
  datatype Page = Page(status: int, main: Option<seq<Node>>)

  /** The conversions parse and the database writer leave to the regular-expression and datetime libraries. */
  datatype Formats = Formats(
    /** The '※ 轉錄者:' line pattern: the forwarder's id and the date text, or no match. */
    rebroadcast: string -> Option<(string, string)>,
    /** strptime(..., '%m/%d/%Y %H:%M:%S').strftime('%a %b %d %H:%M:%S %Y'); None where strptime raises. */
    reformat: string -> Option<string>,
    /** strptime(..., '%a %b %d %H:%M:%S %Y'); None where it raises. */
    readDisplay: string -> Option<Instant>)

  datatype Message = Message(tag: string, userid: string, content: string, ipdatetime: string)

  datatype MessageCount = MessageCount(all: int, count: int, push: int, boo: int, neutral: int)

  datatype ArticleRecord = ArticleRecord(url: string, board: string, articleId: string, title: string,
                                         author: string, date: string, content: string, ip: Option<string>,
                                         messageCount: MessageCount, messages: seq<Message>)

  /** What parse returns: the error dictionary for a status other than 200, or the record. */
  datatype Parsed = InvalidUrl | Record(rec: ArticleRecord)

  // ---------------------------------------------------------------- node queries

  predicate IsMetaLine(n: Node) {
    n.MetaLine?
  }

  /** select('div.article-metaline'): one entry per header line in page order, the value span's text or None. */
  function Metas(nodes: seq<Node>): (r: seq<Option<string>>)
    ensures |r| == |Filter(nodes, IsMetaLine)|
    ensures forall k | 0 <= k < |r| :: r[k] == Filter(nodes, IsMetaLine)[k].value
  {
    if nodes == [] then []
    else
      var rest := Metas(nodes[1..]);
      var lines := Filter(nodes[1..], IsMetaLine);
      assert Filter(nodes, IsMetaLine) == (if nodes[0].MetaLine? then [nodes[0]] else []) + lines;
      (if nodes[0].MetaLine? then [nodes[0].value] else []) + rest
  }

  function PushDivs(nodes: seq<Node>): (r: seq<PushDiv>)
  {
    if nodes == [] then []
    else (if nodes[0].PushBlock? then [nodes[0].push] else []) + PushDivs(nodes[1..])
  }

  function PushTexts(d: PushDiv): seq<string> {
    (if d.tag.Some? then [d.tag.value] else []) + [d.userid] + d.content + [d.ipdatetime]
  }

  /** Every string of #main-content, comments included: where the rebroadcast line is looked for. */
  function AllTexts(nodes: seq<Node>): seq<string> {
    if nodes == [] then []
    else
      var here := match nodes[0]
        case MetaLine(_) => []
        case MetaLineRight(ts) => ts
        case PushBlock(d) => PushTexts(d)
        case TextNode(t) => [t];
      here + AllTexts(nodes[1..])
  }

  /**
   * The strings left once the comment blocks are removed, and, when there are header
   * lines, the header lines and the right-hand header lines too.
   */
  function BodyTexts(nodes: seq<Node>, headerRemoved: bool): seq<string> {
    if nodes == [] then []
    else
      var here := match nodes[0]
        case MetaLineRight(ts) => if headerRemoved then [] else ts
        case TextNode(t) => [t]
        case _ => [];
      here + BodyTexts(nodes[1..], headerRemoved)
  }

  /** The first position from i on whose string holds pat. */
  function FirstIndexFrom(texts: seq<string>, pat: string, i: nat): (r: Option<nat>)
    requires i <= |texts|
    ensures r.Some? ==> i <= r.value < |texts| && Contains(texts[r.value], pat)
    ensures r.Some? ==> forall j | i <= j < r.value :: !Contains(texts[j], pat)
    ensures r.None? ==> forall j | i <= j < |texts| :: !Contains(texts[j], pat)
    decreases |texts| - i
  {
    if i == |texts| then None
    else if Contains(texts[i], pat) then Some(i)
    else FirstIndexFrom(texts, pat, i + 1)
  }

  /** find(text=re.compile(pat)): the string at the first position whose string holds pat. */
  function FirstContaining(texts: seq<string>, pat: string): (r: Option<string>)
    ensures r.Some? ==> r.value in texts && Contains(r.value, pat)
    ensures r.None? <==> forall k | 0 <= k < |texts| :: !Contains(texts[k], pat)
    ensures r.Some? ==>
      exists k | 0 <= k < |texts| :: texts[k] == r.value && forall j | 0 <= j < k :: !Contains(texts[j], pat)
  {
    match FirstIndexFrom(texts, pat, 0)
    case None => None
    case Some(k) => Some(texts[k])
  }

  // ---------------------------------------------------------------- header

  datatype Header = Header(author: string, title: string, date: string)

  /**
   * author, title and date. With header lines, the first three carry them, and a
   * missing line or value span raises; without, a rebroadcast line gives the author
   * and the reformatted date, and a date strptime rejects raises.
   */
  function HeaderOf(nodes: seq<Node>, fm: Formats): (r: Option<Header>)
    ensures Metas(nodes) != [] ==>
      (r.Some? <==> (|Metas(nodes)| >= 3 && Metas(nodes)[0].Some? && Metas(nodes)[1].Some? && Metas(nodes)[2].Some?))
    ensures Metas(nodes) != [] && r.Some? ==>
      r.value == Header(Metas(nodes)[0].value, Metas(nodes)[1].value, Metas(nodes)[2].value)
    ensures Metas(nodes) == [] && r.Some? ==> r.value.title == []
    ensures Metas(nodes) == [] && FirstContaining(AllTexts(nodes), "※ 轉錄者:").None? ==> r == Some(Header([], [], []))
    ensures var t := FirstContaining(AllTexts(nodes), "※ 轉錄者:");
      Metas(nodes) == [] && t.Some? ==>
        && (fm.rebroadcast(t.value).None? ==> r == Some(Header([], [], [])))
        && (fm.rebroadcast(t.value).Some? && fm.reformat(fm.rebroadcast(t.value).value.1).None? ==> r.None?)
        && (fm.rebroadcast(t.value).Some? && fm.reformat(fm.rebroadcast(t.value).value.1).Some? ==>
              r == Some(Header(fm.rebroadcast(t.value).value.0, [], fm.reformat(fm.rebroadcast(t.value).value.1).value)))
  {
    var metas := Metas(nodes);
    if metas != [] then
      if |metas| < 3 || metas[0].None? || metas[1].None? || metas[2].None? then None
      else Some(Header(metas[0].value, metas[1].value, metas[2].value))
    else match FirstContaining(AllTexts(nodes), "※ 轉錄者:")
      case None => Some(Header([], [], []))
      case Some(line) =>
        match fm.rebroadcast(line)
        case None => Some(Header([], [], []))
        case Some((name, when)) =>
          match fm.reformat(when)
          case None => None
          case Some(d) => Some(Header(name, [], d))
  }

  // ---------------------------------------------------------------- sender address

  /** End of the run of ASCII digits starting at i. */
  function DigitRunEnd(s: string, i: nat): (e: nat)
    requires i <= |s|
    ensures i <= e <= |s|
    ensures e == |s| || !IsDigit(s[e])
    decreases |s| - i
  {
    if i < |s| && IsDigit(s[i]) then DigitRunEnd(s, i + 1) else i
  }

  /** Everything the run covers is a digit. */
  lemma {:induction false} DigitRunDigits(s: string, i: nat)
    requires i <= |s|
    ensures forall k | i <= k < DigitRunEnd(s, i) :: IsDigit(s[k])
    decreases |s| - i
  {
    if i < |s| && IsDigit(s[i]) {
      DigitRunDigits(s, i + 1);
    }
  }

  /**
   * Where the rest of a match of [0-9]*(\.[0-9]*){dots} starting at i ends. Digits and '.'
   * are disjoint, so each greedy run is the only way to go on.
   */
  function DotsFrom(s: string, i: nat, dots: nat): (r: Option<nat>)
    requires i <= |s|
    ensures r.Some? ==> i <= r.value <= |s|
    decreases dots
  {
    var e := DigitRunEnd(s, i);
    if dots == 0 then Some(e)
    else if e == |s| || s[e] != '.' then None
    else DotsFrom(s, e + 1, dots - 1)
  }

  /** A match covers digits and '.' only. */
  lemma {:induction false} DotsFromChars(s: string, i: nat, dots: nat)
    requires i <= |s|
    ensures DotsFrom(s, i, dots).Some? ==>
      forall k | i <= k < DotsFrom(s, i, dots).value :: IsDigit(s[k]) || s[k] == '.'
    decreases dots
  {
    var e := DigitRunEnd(s, i);
    DigitRunDigits(s, i);
    if dots > 0 && e < |s| && s[e] == '.' {
      DotsFromChars(s, e + 1, dots - 1);
    }
  }

  /** Where a match of [0-9]*\.[0-9]*\.[0-9]*\.[0-9]* starting at i ends. */
  function DottedAt(s: string, i: nat): (r: Option<nat>)
    requires i <= |s|
    ensures r.Some? ==> i < r.value <= |s|
  {
    var r := DotsFrom(s, i, 3);
    assert r.Some? ==> r.value > i by {
      var e := DigitRunEnd(s, i);
      if e < |s| && s[e] == '.' {
        assert DotsFrom(s, i, 3) == DotsFrom(s, e + 1, 2);
      }
    }
    r
  }

  /** re.search of the dotted pattern from position i on: the leftmost match. */
  function DottedFrom(s: string, i: nat): Option<(nat, nat)>
    requires i <= |s|
    decreases |s| - i
  {
    match DottedAt(s, i)
    case Some(e) => Some((i, e))
    case None => if i == |s| then None else DottedFrom(s, i + 1)
  }

  /** The search finds the leftmost start where the pattern matches, or reports that none does. */
  lemma {:induction false} DottedFromLeftmost(s: string, i: nat)
    requires i <= |s|
    ensures var r := DottedFrom(s, i);
      && (r.Some? ==> i <= r.value.0 <= |s| && DottedAt(s, r.value.0) == Some(r.value.1))
      && (r.Some? ==> forall j | i <= j < r.value.0 :: DottedAt(s, j).None?)
      && (r.None? ==> forall j | i <= j <= |s| :: DottedAt(s, j).None?)
    decreases |s| - i
  {
    if DottedAt(s, i).None? && i < |s| {
      DottedFromLeftmost(s, i + 1);
    }
  }

  /** The address parse keeps: the first dotted token of the line, or None where .group() would fail. */
  function DottedToken(s: string): (r: Option<string>)
    ensures r.Some? ==> Contains(s, r.value) && r.value != []
    ensures r.Some? ==> forall k | 0 <= k < |r.value| :: IsDigit(r.value[k]) || r.value[k] == '.'
    ensures r.None? <==> forall j | 0 <= j <= |s| :: DottedAt(s, j).None?
  {
    DottedFromLeftmost(s, 0);
    match DottedFrom(s, 0)
    case None => None
    case Some((b, e)) =>
      DotsFromChars(s, b, 3);
      assert OccursAt(s, s[b..e], b);
      Some(s[b..e])
  }

  /** '※ 發信站:' is searched among the strings left after the comments and header are removed. */
  function SenderIp(texts: seq<string>): (r: Option<string>)
    ensures FirstContaining(texts, "※ 發信站:").None? ==> r.None?
    ensures FirstContaining(texts, "※ 發信站:").Some? ==> r == DottedToken(FirstContaining(texts, "※ 發信站:").value)
  {
    match FirstContaining(texts, "※ 發信站:")
    case None => None
    case Some(line) => DottedToken(line)
  }

  /** The ASCII digits of s[i..e], with s[e] not a digit, are a whole run. */
  lemma {:induction false} RunEndIs(s: string, i: nat, e: nat)
    requires i <= e <= |s| && (forall k | i <= k < e :: IsDigit(s[k])) && (e == |s| || !IsDigit(s[e]))
    ensures DigitRunEnd(s, i) == e
    decreases e - i
  {
    if i < e {
      RunEndIs(s, i + 1, e);
    }
  }

  predicate AllDigits(d: string) {
    forall k | 0 <= k < |d| :: IsDigit(d[k])
  }

  /**
   * On a line "… 來自: a.b.c.d" whose text before the address holds no '.' and does not
   * end in a digit, and whose text after it does not start with a digit, the address
   * kept is exactly a.b.c.d.
   */
  lemma SenderAddress(pre: string, groups: seq<string>, post: string)
    requires |groups| == 4 && forall k | 0 <= k < 4 :: AllDigits(groups[k])
    requires '.' !in pre && (pre == [] || !IsDigit(pre[|pre| - 1]))
    requires post == [] || !IsDigit(post[0])
    ensures DottedToken(pre + Join(groups, ".") + post) == Some(Join(groups, "."))
  {
    var ip := Join(groups, ".");
    var s := pre + ip + post;
    var p := |pre|;
    var e := p + |ip|;
    assert s[p..e] == ip;
    assert DottedAt(s, p) == Some(e) by {
      assert e < |s| ==> s[e] == post[0];
      JoinPlaced(s, p, groups, e);
      DotsThrough(s, p, groups, e);
    }
    assert forall j | 0 <= j < p :: DottedAt(s, j).None? by {
      forall j | 0 <= j < p ensures DottedAt(s, j).None? {
        assert s[..p] == pre;
        NoDottedInPrefix(pre, s, j);
      }
    }
    FirstDotted(s, p, e);
  }

  /** The leftmost match is the one at p when none starts before it. */
  lemma FirstDotted(s: string, p: nat, e: nat)
    requires p <= |s| && DottedAt(s, p) == Some(e)
    requires forall j | 0 <= j < p :: DottedAt(s, j).None?
    ensures DottedToken(s) == Some(s[p..e])
  {
    DottedFromLeftmost(s, 0);
    var r := DottedFrom(s, 0);
    assert r.Some?;
    assert r.value.0 == p;
  }

  /**
   * s[i..e] is groups[0], a '.', groups[1], … in turn, as far as what the match sees:
   * each group's length in digits, and a '.' between neighbours.
   */
  ghost predicate Placed(s: string, i: nat, e: nat, groups: seq<string>)
    decreases |groups|
  {
    |groups| >= 1 && i + |groups[0]| <= e <= |s|
    && (forall k | i <= k < i + |groups[0]| :: IsDigit(s[k]))
    && if |groups| == 1 then e == i + |groups[0]|
       else i + |groups[0]| < e && s[i + |groups[0]|] == '.' && Placed(s, i + |groups[0]| + 1, e, groups[1..])
  }

  /** Digit groups joined by '.' and followed by a non-digit are matched whole, one '.' per later group. */
  lemma {:induction false} DotsThrough(s: string, i: nat, groups: seq<string>, e: nat)
    requires Placed(s, i, e, groups) && (e == |s| || !IsDigit(s[e]))
    ensures DotsFrom(s, i, |groups| - 1) == Some(e)
    decreases |groups|
  {
    var f := i + |groups[0]|;
    if |groups| == 1 {
      RunEndIs(s, i, f);
    } else {
      RunEndIs(s, i, f);
      DotsThrough(s, f + 1, groups[1..], e);
      DotsStep(s, i, f, |groups| - 1);
    }
  }

  /** A join of digit groups copied into s is placed there. */
  lemma {:induction false} JoinPlaced(s: string, i: nat, groups: seq<string>, e: nat)
    requires |groups| >= 1 && forall k | 0 <= k < |groups| :: AllDigits(groups[k])
    requires e == i + |Join(groups, ".")| && e <= |s| && s[i..e] == Join(groups, ".")
    ensures Placed(s, i, e, groups)
    decreases |groups|
  {
    var g := groups[0];
    if |groups| == 1 {
      DigitsAt(s, i, g);
    } else {
      JoinAt(s, i, groups, e);
      DigitsAt(s, i, g);
      forall k | 0 <= k < |groups[1..]| ensures AllDigits(groups[1..][k]) {
        assert groups[1..][k] == groups[k + 1];
      }
      JoinPlaced(s, i + |g| + 1, groups[1..], e);
    }
  }

  /** Where a join of two or more groups sits in s, its first group, the '.' and the rest follow one another. */
  lemma JoinAt(s: string, i: nat, groups: seq<string>, e: nat)
    requires |groups| >= 2 && e == i + |Join(groups, ".")| && e <= |s| && s[i..e] == Join(groups, ".")
    ensures i + |groups[0]| < e && s[i..i + |groups[0]|] == groups[0] && s[i + |groups[0]|] == '.'
    ensures e == i + |groups[0]| + 1 + |Join(groups[1..], ".")|
    ensures s[i + |groups[0]| + 1..e] == Join(groups[1..], ".")
  {
    var j := Join(groups, ".");
    var g := groups[0];
    var rest := Join(groups[1..], ".");
    assert j == g + "." + rest;
    assert s[i..i + |g|] == j[..|g|];
    assert s[i + |g|] == j[|g|];
    assert s[i + |g| + 1..e] == j[|g| + 1..];
  }

  /** Digits copied into s at i make s's characters digits there. */
  lemma DigitsAt(s: string, i: nat, g: string)
    requires AllDigits(g) && i + |g| <= |s| && s[i..i + |g|] == g
    ensures forall k | i <= k < i + |g| :: IsDigit(s[k])
  {
    forall k | i <= k < i + |g| ensures IsDigit(s[k]) {
      assert s[k] == s[i..i + |g|][k - i];
    }
  }

  /** A digit run that stops at a '.' hands the match on to the next run. */
  lemma DotsStep(s: string, i: nat, f: nat, dots: nat)
    requires i <= |s| && dots > 0
    requires DigitRunEnd(s, i) == f && f < |s| && s[f] == '.'
    ensures DotsFrom(s, i, dots) == DotsFrom(s, f + 1, dots - 1)
  {
  }

  /** No dotted match starts inside a prefix that holds no '.' and does not end in a digit. */
  lemma NoDottedInPrefix(pre: string, s: string, j: nat)
    requires |pre| <= |s| && s[..|pre|] == pre && j < |pre|
    requires '.' !in pre && !IsDigit(pre[|pre| - 1])
    ensures DottedAt(s, j).None?
  {
    var e1 := DigitRunEnd(s, j);
    DigitRunDigits(s, j);
    assert s[|pre| - 1] == pre[|pre| - 1];
    assert e1 < |pre|;
    assert s[e1] == pre[e1];
  }

  // ---------------------------------------------------------------- body text

  /** The characters the body filter keeps: CJK ideographs and punctuation, \s, \w and a few symbols. */
  predicate IsAllowed(c: char) {
    ('\U{4E00}' <= c <= '\U{9FA5}')
    || c == '\U{3002}' || c == '\U{FF1B}' || c == '\U{FF0C}' || c == '\U{FF1A}' || c == '\U{201C}'
    || c == '\U{201D}' || c == '\U{FF08}' || c == '\U{FF09}' || c == '\U{3001}' || c == '\U{FF1F}'
    || c == '\U{300A}' || c == '\U{300B}'
    || IsSpace(c) || IsWordChar(c) || c == ':' || ('/' <= c <= '_')
    || c == '.' || c == '?' || c == '~' || c == '%' || c == '(' || c == ')'
  }

  /** re.sub(expr, '', v): every character outside the allowed class is deleted. */
  function KeepAllowed(v: string): (r: string)
    ensures |r| <= |v|
    ensures AllChars(r, IsAllowed)
    ensures AllChars(v, IsAllowed) ==> r == v
  {
    if v == [] then []
    else if IsAllowed(v[0]) then [v[0]] + KeepAllowed(v[1..])
    else KeepAllowed(v[1..])
  }

  /** Only the disallowed characters go: every allowed character of v stays, and nothing else appears. */
  lemma {:induction false} KeepAllowedKeeps(v: string)
    ensures forall k | 0 <= k < |v| && IsAllowed(v[k]) :: v[k] in KeepAllowed(v)
    ensures forall k | 0 <= k < |KeepAllowed(v)| :: KeepAllowed(v)[k] in v
  {
    if v != [] {
      KeepAllowedKeeps(v[1..]);
      assert forall k | 1 <= k < |v| :: v[k] == v[1..][k - 1];
      assert forall c | c in v[1..] :: c in v;
    }
  }

  /** Filtering twice is filtering once. */
  lemma KeepAllowedIdempotent(v: string)
    ensures KeepAllowed(KeepAllowed(v)) == KeepAllowed(v)
  {
  }

  /** The strings of stripped_strings: each string stripped, empty ones skipped. */
  function StrippedStrings(texts: seq<string>): (r: seq<string>)
    ensures forall k | 0 <= k < |r| :: r[k] != []
  {
    if texts == [] then []
    else (if Strip(texts[0]) != [] then [Strip(texts[0])] else []) + StrippedStrings(texts[1..])
  }

  /** Lines starting with '※' or '◆' (signature and sender lines) or with '--'. */
  predicate IsMarkerLine(v: string) {
    (v != [] && (v[0] == '※' || v[0] == '◆')) || (|v| >= 2 && v[..2] == "--")
  }

  predicate NotMarker(v: string) { !IsMarkerLine(v) }

  predicate NonEmpty(v: string) { v != [] }

  /** The lines holding the article id are the link to the article itself. */
  predicate Lacks(id: string, v: string) { !Contains(v, id) }

  function MapKeepAllowed(lines: seq<string>): (r: seq<string>)
    ensures |r| == |lines| && forall k | 0 <= k < |r| :: r[k] == KeepAllowed(lines[k])
  {
    seq(|lines|, k requires 0 <= k < |lines| => KeepAllowed(lines[k]))
  }

  function LacksId(articleId: string): string -> bool {
    v => Lacks(articleId, v)
  }

  /** The lines that reach the body, in page order. */
  function BodyLines(texts: seq<string>, articleId: string): seq<string> {
    var filtered := MapKeepAllowed(Filter(StrippedStrings(texts), NotMarker));
    Filter(Filter(filtered, NonEmpty), LacksId(articleId))
  }

  /** The body as parse builds it from the strings left in #main-content. */
  function Body(texts: seq<string>, articleId: string): string {
    Collapse(Join(BodyLines(texts, articleId), " "))
  }

  /** A string of #main-content reaches the body when, stripped, it is no marker line, and, filtered, it is non-empty and free of the id. */
  predicate Survives(t: string, articleId: string) {
    var v := Strip(t);
    v != [] && NotMarker(v) && KeepAllowed(v) != [] && Lacks(articleId, KeepAllowed(v))
  }

  lemma {:induction false} StrippedStringsAppend(a: seq<string>, b: seq<string>)
    ensures StrippedStrings(a + b) == StrippedStrings(a) + StrippedStrings(b)
    decreases |a|
  {
    if a == [] {
      assert a + b == b;
    } else {
      assert (a + b)[0] == a[0] && (a + b)[1..] == a[1..] + b;
      StrippedStringsAppend(a[1..], b);
    }
  }

  /** The body lines of two runs of strings are those of the first followed by those of the second. */
  lemma BodyLinesAppend(a: seq<string>, b: seq<string>, articleId: string)
    ensures BodyLines(a + b, articleId) == BodyLines(a, articleId) + BodyLines(b, articleId)
  {
    var xa, xb := StrippedStrings(a), StrippedStrings(b);
    StrippedStringsAppend(a, b);
    var sa, sb := Filter(xa, NotMarker), Filter(xb, NotMarker);
    FilterAppend(xa, xb, NotMarker);
    var ma, mb := MapKeepAllowed(sa), MapKeepAllowed(sb);
    MapKeepAllowedAppend(sa, sb);
    var na, nb := Filter(ma, NonEmpty), Filter(mb, NonEmpty);
    FilterAppend(ma, mb, NonEmpty);
    FilterAppend(na, nb, LacksId(articleId));
  }

  lemma MapKeepAllowedAppend(a: seq<string>, b: seq<string>)
    ensures MapKeepAllowed(a + b) == MapKeepAllowed(a) + MapKeepAllowed(b)
  {
    var l, r := MapKeepAllowed(a + b), MapKeepAllowed(a) + MapKeepAllowed(b);
    assert |l| == |r|;
    forall k | 0 <= k < |l| ensures l[k] == r[k] {
      if k < |a| {
        assert (a + b)[k] == a[k];
      } else {
        assert (a + b)[k] == b[k - |a|];
      }
    }
  }

  /** One string gives its stripped, filtered text as one body line exactly when it survives, and nothing otherwise. */
  lemma BodyLinesOne(t: string, articleId: string)
    ensures BodyLines([t], articleId) == if Survives(t, articleId) then [KeepAllowed(Strip(t))] else []
  {
    var v := Strip(t);
    assert StrippedStrings([t]) == if v != [] then [v] else [] by {
      assert [t][1..] == [];
    }
    if v != [] {
      FilterOne(v, NotMarker);
      if NotMarker(v) {
        var w := KeepAllowed(v);
        assert MapKeepAllowed([v]) == [w];
        FilterOne(w, NonEmpty);
        if w != [] {
          FilterOne(w, LacksId(articleId));
        }
      }
    }
  }

  /** When no body line holds whitespace, the body is the lines joined by single spaces. */
  lemma BodyOfWordLines(texts: seq<string>, articleId: string)
    requires forall k | 0 <= k < |BodyLines(texts, articleId)| :: HasNoSpace(BodyLines(texts, articleId)[k])
    ensures Body(texts, articleId) == Join(BodyLines(texts, articleId), " ")
  {
    var filtered := MapKeepAllowed(Filter(StrippedStrings(texts), NotMarker));
    var nonEmpty := Filter(filtered, NonEmpty);
    var lines := BodyLines(texts, articleId);
    forall k | 0 <= k < |lines| ensures lines[k] != [] {
      assert lines[k] in nonEmpty;
    }
    CollapseJoinedWords(lines);
  }

  /** The in-place pass over `filtered`: each line loses the characters outside the allowed class. */
  method FilterLines(a: array<string>)
    modifies a
    ensures a[..] == MapKeepAllowed(old(a[..]))
  {
    var i := 0;
    while i < a.Length
      invariant 0 <= i <= a.Length
      invariant a[..i] == MapKeepAllowed(old(a[..]))[..i]
      invariant a[i..] == old(a[..])[i..]
    {
      a[i] := KeepAllowed(a[i]);
      i := i + 1;
    }
  }

  /** A non-empty, whitespace-free article id never survives into the body. */
  lemma BodyOmitsId(texts: seq<string>, articleId: string)
    ensures articleId != [] && HasNoSpace(articleId) ==> !Contains(Body(texts, articleId), articleId)
  {
    var filtered := MapKeepAllowed(Filter(StrippedStrings(texts), NotMarker));
    var lines := BodyLines(texts, articleId);
    var joined := Join(lines, " ");
    if articleId != [] && HasNoSpace(articleId) && Contains(Collapse(joined), articleId) {
      CollapseKeepsWords(joined, articleId);
      JoinKeepsWords(lines, articleId);
      assert false;
    }
  }

  /** The body holds only allowed characters and no two whitespace characters in a row. */
  lemma BodyIsClean(texts: seq<string>, articleId: string)
    ensures AllChars(Body(texts, articleId), IsAllowed)
    ensures NoAdjacentSpaces(Body(texts, articleId))
  {
    var filtered := MapKeepAllowed(Filter(StrippedStrings(texts), NotMarker));
    var lines := BodyLines(texts, articleId);
    var joined := Join(lines, " ");
    assert AllChars(joined, IsAllowed) by {
      forall k | 0 <= k < |lines| ensures AllChars(lines[k], IsAllowed) {
        assert lines[k] in filtered;
      }
      JoinChars(lines, " ", IsAllowed);
    }
    CollapseChars(joined, IsAllowed);
    CollapseNoAdjacentSpaces(joined);
  }

  // ---------------------------------------------------------------- comments

  /** strip(' \t\n\r'). */
  predicate IsLineSpace(c: char) {
    c == ' ' || c == '\t' || c == '\n' || c == '\r'
  }

  /** s[1:], which is empty for the empty string. */
  function DropFirst(s: string): (r: string)
    ensures s != [] ==> r == s[1..]
    ensures s == [] ==> r == []
  {
    if s == [] then [] else s[1..]
  }

  /** The message of a comment block: its four spans' texts, stripped, with the content's leading ':' dropped. */
  function MessageOf(d: PushDiv): Message
    requires d.tag.Some?
  {
    Message(Trim(d.tag.value, IsLineSpace), Trim(d.userid, IsLineSpace),
            Trim(DropFirst(Join(d.content, " ")), IsLineSpace), Trim(d.ipdatetime, IsLineSpace))
  }

  /** One message per comment block that has a tag span, in page order. */
  function MessagesOf(divs: seq<PushDiv>): (r: seq<Message>)
    ensures |r| <= |divs|
  {
    if divs == [] then []
    else
      var last := divs[|divs| - 1];
      MessagesOf(divs[..|divs| - 1]) + (if last.tag.Some? then [MessageOf(last)] else [])
  }

  /** The tag of a push and of a boo. */
  const PushTag: string := "推"
  const BooTag: string := "噓"

  function TagCount(msgs: seq<Message>, tag: string): (r: nat)
    ensures r <= |msgs|
  {
    if msgs == [] then 0
    else TagCount(msgs[..|msgs| - 1], tag) + (if msgs[|msgs| - 1].tag == tag then 1 else 0)
  }

  /**
   * The comment loop: skips blocks without a tag span, and counts '推' (push),
   * '噓' (boo) and every other tag (neutral).
   */
  method CollectMessages(divs: seq<PushDiv>) returns (messages: seq<Message>, p: nat, b: nat, n: nat)
    ensures messages == MessagesOf(divs)
    ensures p == TagCount(messages, PushTag) && b == TagCount(messages, BooTag)
    ensures p + b + n == |messages|
  {
    messages, p, b, n := [], 0, 0, 0;
    var i := 0;
    while i < |divs|
      invariant 0 <= i <= |divs|
      invariant messages == MessagesOf(divs[..i])
      invariant p == TagCount(messages, PushTag) && b == TagCount(messages, BooTag)
      invariant p + b + n == |messages|
    {
      var d := divs[i];
      MessagesStep(divs, i);
      if d.tag.Some? {
        var m := MessageOf(d);
        TagCountStep(messages, m, PushTag);
        TagCountStep(messages, m, BooTag);
        if m.tag == PushTag {
          assert m.tag != BooTag by { assert PushTag[0] != BooTag[0]; }
          p := p + 1;
        } else if m.tag == BooTag {
          b := b + 1;
        } else {
          n := n + 1;
        }
        messages := messages + [m];
      }
      i := i + 1;
    }
    assert divs[..|divs|] == divs;
  }

  lemma MessagesStep(divs: seq<PushDiv>, i: nat)
    requires i < |divs|
    ensures MessagesOf(divs[..i + 1]) == MessagesOf(divs[..i]) + (if divs[i].tag.Some? then [MessageOf(divs[i])] else [])
  {
    assert divs[..i + 1][..i] == divs[..i];
  }

  lemma TagCountStep(ms: seq<Message>, m: Message, tag: string)
    ensures TagCount(ms + [m], tag) == TagCount(ms, tag) + (if m.tag == tag then 1 else 0)
  {
    assert (ms + [m])[..|ms|] == ms;
  }

  /** message_count: all, count (pushes less boos), push, boo, neutral. */
  function Tally(messages: seq<Message>): (c: MessageCount)
    ensures c.all == |messages| && c.count == c.push - c.boo && c.push + c.boo + c.neutral == c.all
    ensures c.push == TagCount(messages, PushTag) && c.boo == TagCount(messages, BooTag)
  {
    var p := TagCount(messages, PushTag);
    var b := TagCount(messages, BooTag);
    MessageCount(|messages|, p - b, p, b, |messages| - p - b)
  }

  /** The three counters of the comment loop make up message_count. */
  lemma TallyOfCounts(messages: seq<Message>, p: nat, b: nat, n: nat)
    requires p == TagCount(messages, PushTag) && b == TagCount(messages, BooTag) && p + b + n == |messages|
    ensures MessageCount(p + b + n, p as int - b as int, p, b, n) == Tally(messages)
  {
  }

  // ---------------------------------------------------------------- parse

  /** The record parse builds once the page has a main block and a readable header. */
  function RecordOf(nodes: seq<Node>, h: Header, link: string, articleId: string, board: string): ArticleRecord {
    var texts := BodyTexts(nodes, Metas(nodes) != []);
    var messages := MessagesOf(PushDivs(nodes));
    ArticleRecord(link, board, articleId, h.title, h.author, h.date, Body(texts, articleId),
                  SenderIp(texts), Tally(messages), messages)
  }

  /** The record carries the page's identity, its header, its comments and their tally, and a clean body. */
  lemma RecordIsClean(nodes: seq<Node>, h: Header, link: string, articleId: string, board: string)
    ensures var rec := RecordOf(nodes, h, link, articleId, board);
      && rec.url == link && rec.board == board && rec.articleId == articleId
      && rec.author == h.author && rec.title == h.title && rec.date == h.date
      && rec.messages == MessagesOf(PushDivs(nodes))
      && rec.messageCount.all == |rec.messages|
      && rec.messageCount.count == rec.messageCount.push - rec.messageCount.boo
      && AllChars(rec.content, IsAllowed) && NoAdjacentSpaces(rec.content)
      && (articleId != [] && HasNoSpace(articleId) ==> !Contains(rec.content, articleId))
      && rec.ip == SenderIp(BodyTexts(nodes, Metas(nodes) != []))
  {
    var texts := BodyTexts(nodes, Metas(nodes) != []);
    BodyIsClean(texts, articleId);
    BodyOmitsId(texts, articleId);
  }

  /**
   * What parse returns for a page. None stands for the exceptions parse lets escape:
   * a page without #main-content, and a header it cannot read.
   */
  function ParseSpec(page: Page, link: string, articleId: string, board: string, fm: Formats): (r: Option<Parsed>)
    ensures page.status != 200 ==> r == Some(InvalidUrl)
    ensures page.status == 200 ==> (r.Some? <==> page.main.Some? && HeaderOf(page.main.value, fm).Some?)
    ensures r.Some? && r.value.Record? ==> page.status == 200 && page.main.Some?
    ensures r.Some? && r.value.Record? ==>
      var rec := r.value.rec;
      && rec.url == link && rec.board == board && rec.articleId == articleId
      && rec.messages == MessagesOf(PushDivs(page.main.value))
      && rec.messageCount.all == |rec.messages|
      && rec.messageCount.count == rec.messageCount.push - rec.messageCount.boo
      && AllChars(rec.content, IsAllowed) && NoAdjacentSpaces(rec.content)
      && (articleId != [] && HasNoSpace(articleId) ==> !Contains(rec.content, articleId))
    ensures r.Some? && r.value.Record? && Metas(page.main.value) != [] ==>
      var metas := Metas(page.main.value);
      r.value.rec.author == metas[0].value && r.value.rec.title == metas[1].value
      && r.value.rec.date == metas[2].value
    ensures r.Some? && r.value.Record? ==>
      var h := HeaderOf(page.main.value, fm).value;
      r.value.rec.author == h.author && r.value.rec.title == h.title && r.value.rec.date == h.date
    ensures r.Some? && r.value.Record? ==>
      r.value.rec.ip == SenderIp(BodyTexts(page.main.value, Metas(page.main.value) != []))
  {
    if page.status != 200 then Some(InvalidUrl)
    else if page.main.None? then None
    else
      var nodes := page.main.value;
      match HeaderOf(nodes, fm)
      case None => None
      case Some(h) =>
        RecordIsClean(nodes, h, link, articleId, board);
        Some(Record(RecordOf(nodes, h, link, articleId, board)))
  }

  /** The body pipeline of parse, with the character filter applied in place to the list of lines. */
  method CleanBody(texts: seq<string>, articleId: string) returns (content: string)
    ensures content == Body(texts, articleId)
  {
    var kept := Filter(StrippedStrings(texts), NotMarker);
    var filtered := new string[|kept|](k requires 0 <= k < |kept| => kept[k]);
    assert filtered[..] == kept;
    FilterLines(filtered);
    var lines := Filter(Filter(filtered[..], NonEmpty), LacksId(articleId));
    content := Collapse(Join(lines, " "));
  }

  /** The record of a page with a main block and a readable header: body filtered in place, comments counted in a loop. */
  method BuildRecord(nodes: seq<Node>, h: Header, link: string, articleId: string, board: string) returns (rec: ArticleRecord)
    ensures rec == RecordOf(nodes, h, link, articleId, board)
  {
    var texts := BodyTexts(nodes, Metas(nodes) != []);
    var content := CleanBody(texts, articleId);
    var messages, p, b, n := CollectMessages(PushDivs(nodes));
    TallyOfCounts(messages, p, b, n);
    var count := MessageCount(p + b + n, p as int - b as int, p, b, n);
    rec := ArticleRecord(link, board, articleId, h.title, h.author, h.date, content,
                         SenderIp(texts), count, messages);
  }

  /** parse(link, article_id, board). */
  method Parse(page: Page, link: string, articleId: string, board: string, fm: Formats) returns (r: Option<Parsed>)
    ensures r == ParseSpec(page, link, articleId, board, fm)
  {
    if page.status != 200 {
      return Some(InvalidUrl);
    }
    if page.main.None? {
      return None;
    }
    var nodes := page.main.value;
    var header := HeaderOf(nodes, fm);
    if header.None? {
      return None;
    }
    var rec := BuildRecord(nodes, header.value, link, articleId, board);
    r := Some(Record(rec));
  }
}
