/**
 * The two field readers nested in ArticleCrawler._output_database
 * (crawler/article.py): parse_author, which takes the user id out of an
 * author line "id (nickname)", and parser_push_ipdatetime, which splits a
 * comment's "ip MM/DD hh:mm" field and reads the time with "%m/%d %M:%S".
 * Both regular expressions are written out with Python's leftmost,
 * greedy-with-backtracking search.
 */
module ArticleFields {
  import opened Wrappers
  import opened Text
  import opened Records

  // ---------------------------------------------------------------- parse_author: ([\S]*)\D\((.*)\)

  /** End of the run of non-whitespace characters starting at i. */
  function WordRunEnd(s: string, i: nat): (e: nat)
    requires i <= |s|
    ensures i <= e <= |s|
    ensures forall k | i <= k < e :: !IsSpace(s[k])
    ensures e == |s| || IsSpace(s[e])
    decreases |s| - i
  {
    if i < |s| && !IsSpace(s[i]) then WordRunEnd(s, i + 1) else i
  }

  /** (.*)\) from k: a ')' comes before any newline. */
  predicate ClosesFrom(s: string, k: nat)
    requires k <= |s|
    decreases |s| - k
  {
    k < |s| && (s[k] == ')' || (s[k] != '\n' && ClosesFrom(s, k + 1)))
  }

  /** \D\((.*)\) matches from j. */
  predicate AuthorTail(s: string, j: nat) {
    j + 1 < |s| && !IsDigit(s[j]) && s[j + 1] == '(' && ClosesFrom(s, j + 2)
  }

  /** With the match starting at i, the longest end j' <= j of group 1 the rest of the pattern accepts. */
  function AuthorEnd(s: string, i: nat, j: nat): (r: Option<nat>)
    requires i <= j <= |s|
    ensures r.Some? ==> i <= r.value <= j && AuthorTail(s, r.value)
    ensures r.Some? ==> forall m | r.value < m <= j :: !AuthorTail(s, m)
    ensures r.None? ==> forall m | i <= m <= j :: !AuthorTail(s, m)
    decreases j
  {
    if AuthorTail(s, j) then Some(j)
    else if j == i then None
    else AuthorEnd(s, i, j - 1)
  }

  /** The leftmost start from i on at which the pattern matches, with group 1's end. */
  function AuthorSearch(s: string, i: nat): (r: Option<(nat, nat)>)
    requires i <= |s|
    ensures r.Some? ==> i <= r.value.0 <= r.value.1 <= |s|
    ensures r.Some? ==> AuthorEnd(s, r.value.0, WordRunEnd(s, r.value.0)) == Some(r.value.1)
    ensures r.Some? ==> forall m | i <= m < r.value.0 :: AuthorEnd(s, m, WordRunEnd(s, m)).None?
    ensures r.None? ==> forall m | i <= m <= |s| :: AuthorEnd(s, m, WordRunEnd(s, m)).None?
    decreases |s| - i
  {
    match AuthorEnd(s, i, WordRunEnd(s, i))
    case Some(j) => Some((i, j))
    case None => if i == |s| then None else AuthorSearch(s, i + 1)
  }

  /** parse_author: group 1 of the leftmost match, or the whole line when nothing matches. */
  function ParseAuthor(author: string): (r: string)
    ensures AuthorSearch(author, 0).None? ==> r == author
    ensures AuthorSearch(author, 0).Some? ==>
      r == author[AuthorSearch(author, 0).value.0..AuthorSearch(author, 0).value.1]
    ensures AuthorSearch(author, 0).Some? ==> HasNoSpace(r) && Contains(author, r)
  {
    match AuthorSearch(author, 0)
    case None => author
    case Some((i, j)) =>
      assert OccursAt(author, author[i..j], i);
      author[i..j]
  }

  /** A line with no '(' is kept whole. */
  lemma AuthorWithoutParen(author: string)
    requires '(' !in author
    ensures ParseAuthor(author) == author
  {
    forall j: nat | j + 1 < |author| ensures !AuthorTail(author, j) {
      assert author[j + 1] in author;
    }
  }

  /** ")" preceded by newline-free text closes the group. */
  lemma {:induction false} ClosesBefore(s: string, k: nat, m: nat)
    requires k <= m < |s| && s[m] == ')' && forall x | k <= x < m :: s[x] != '\n'
    ensures ClosesFrom(s, k)
    decreases m - k
  {
    if k < m {
      ClosesBefore(s, k + 1, m);
    }
  }

  /** "id (nickname)" gives the id, for a whitespace-free id and a one-line nickname. */
  lemma AuthorOfIdAndNickname(id: string, nickname: string)
    requires HasNoSpace(id) && '\n' !in nickname
    ensures ParseAuthor(id + " (" + nickname + ")") == id
  {
    var s := id + " (" + nickname + ")";
    var n := |id|;
    assert forall k | 0 <= k < n :: s[k] == id[k];
    assert s[n] == ' ' && s[n + 1] == '(' && s[|s| - 1] == ')';
    assert forall x | n + 2 <= x < |s| - 1 :: s[x] == nickname[x - n - 2];
    ClosesBefore(s, n + 2, |s| - 1);
    assert WordRunEnd(s, 0) == n;
    assert AuthorTail(s, n);
    assert AuthorSearch(s, 0) == Some((0, n));
    assert s[0..n] == id;
  }

  // ---------------------------------------------------------------- parser_push_ipdatetime: ([\d.]*)\W?(\d{2}\/\d{2}\ \d{2}:\d{2})

  predicate IsDigitOrDot(c: char) {
    IsDigit(c) || c == '.'
  }

  /** End of the run of digits and dots starting at i. */
  function DigitDotRunEnd(s: string, i: nat): (e: nat)
    requires i <= |s|
    ensures i <= e <= |s|
    ensures forall k | i <= k < e :: IsDigitOrDot(s[k])
    ensures e == |s| || !IsDigitOrDot(s[e])
    decreases |s| - i
  {
    if i < |s| && IsDigitOrDot(s[i]) then DigitDotRunEnd(s, i + 1) else i
  }

  /** "DD/DD DD:DD" at k. */
  predicate StampAt(s: string, k: nat) {
    k + 11 <= |s| && IsDigit(s[k]) && IsDigit(s[k + 1]) && s[k + 2] == '/' && IsDigit(s[k + 3])
    && IsDigit(s[k + 4]) && s[k + 5] == ' ' && IsDigit(s[k + 6]) && IsDigit(s[k + 7])
    && s[k + 8] == ':' && IsDigit(s[k + 9]) && IsDigit(s[k + 10])
  }

  /** \W?(\d{2}\/\d{2}\ \d{2}:\d{2}) with \W? taking one character. */
  predicate StampAfterSep(s: string, j: nat) {
    j < |s| && !IsWordChar(s[j]) && StampAt(s, j + 1)
  }

  /** \W?(\d{2}\/\d{2}\ \d{2}:\d{2}) matches from j. */
  predicate StampTail(s: string, j: nat) {
    StampAfterSep(s, j) || StampAt(s, j)
  }

  /**
   * With the match starting at i and group 1 ending at most at j: group 1's end and
   * group 2's start. Group 1 gives back characters one at a time from j, and at each
   * end \W? tries one character first, then none.
   */
  function StampEnd(s: string, i: nat, j: nat): (r: Option<(nat, nat)>)
    requires i <= j <= |s|
    ensures r.Some? ==> i <= r.value.0 <= j && StampTail(s, r.value.0)
    ensures r.Some? ==> r.value.1 == if StampAfterSep(s, r.value.0) then r.value.0 + 1 else r.value.0
    ensures r.Some? ==> StampAt(s, r.value.1)
    ensures r.Some? ==> forall m | r.value.0 < m <= j :: !StampTail(s, m)
    ensures r.None? ==> forall m | i <= m <= j :: !StampTail(s, m)
    decreases j
  {
    if j < |s| && !IsWordChar(s[j]) && StampAt(s, j + 1) then Some((j, j + 1))
    else if StampAt(s, j) then Some((j, j))
    else if j == i then None
    else StampEnd(s, i, j - 1)
  }

  /** The leftmost start from i on at which the pattern matches, with group 1's end and group 2's start. */
  function StampSearch(s: string, i: nat): (r: Option<(nat, nat, nat)>)
    requires i <= |s|
    ensures r.Some? ==> i <= r.value.0 <= r.value.1 <= |s| && StampAt(s, r.value.2)
    ensures r.Some? ==> forall k | r.value.0 <= k < r.value.1 :: IsDigitOrDot(s[k])
    decreases |s| - i
  {
    var e := DigitDotRunEnd(s, i);
    match StampEnd(s, i, e)
    case Some((j, k)) =>
      assert j <= e;
      Some((i, j, k))
    case None => if i == |s| then None else StampSearch(s, i + 1)
  }

  /** re.search's choice: the match starts at the leftmost position where a match exists, and there takes
      the group ends StampEnd picks; None exactly when no position from i on admits a match. */
  lemma {:induction false} StampSearchLeftmost(s: string, i: nat)
    requires i <= |s|
    ensures var r := StampSearch(s, i);
      r.Some? ==> StampEnd(s, r.value.0, DigitDotRunEnd(s, r.value.0)) == Some((r.value.1, r.value.2))
    ensures var r := StampSearch(s, i);
      r.Some? ==> forall m | i <= m < r.value.0 :: StampEnd(s, m, DigitDotRunEnd(s, m)).None?
    ensures var r := StampSearch(s, i);
      r.None? ==> forall m | i <= m <= |s| :: StampEnd(s, m, DigitDotRunEnd(s, m)).None?
  {
    StampSearchGroups(s, i);
    StampSearchNone(s, i);
    var r := StampSearch(s, i);
    if r.Some? {
      forall m | i <= m < r.value.0
        ensures StampEnd(s, m, DigitDotRunEnd(s, m)).None?
      {
        StampSearchSkips(s, i, m);
      }
    }
  }

  lemma {:induction false} StampSearchGroups(s: string, i: nat)
    requires i <= |s|
    ensures var r := StampSearch(s, i);
      r.Some? ==> StampEnd(s, r.value.0, DigitDotRunEnd(s, r.value.0)) == Some((r.value.1, r.value.2))
    decreases |s| - i
  {
    var here := StampEnd(s, i, DigitDotRunEnd(s, i));
    if here.None? && i < |s| {
      StampSearchGroups(s, i + 1);
    }
  }

  lemma {:induction false} StampSearchSkips(s: string, i: nat, m: nat)
    requires i <= m <= |s| && StampSearch(s, i).Some? && m < StampSearch(s, i).value.0
    ensures StampEnd(s, m, DigitDotRunEnd(s, m)).None?
    decreases m - i
  {
    var here := StampEnd(s, i, DigitDotRunEnd(s, i));
    if here.Some? {
      assert false;
    } else if i < m {
      assert StampSearch(s, i) == StampSearch(s, i + 1);
      StampSearchSkips(s, i + 1, m);
    }
  }

  lemma {:induction false} StampSearchNone(s: string, i: nat)
    requires i <= |s|
    ensures var r := StampSearch(s, i);
      r.None? ==> forall m | i <= m <= |s| :: StampEnd(s, m, DigitDotRunEnd(s, m)).None?
    decreases |s| - i
  {
    var here := StampEnd(s, i, DigitDotRunEnd(s, i));
    if here.None? && i < |s| {
      StampSearchNone(s, i + 1);
    }
  }

  /** The comment's address (group 1, possibly empty) and time text (group 2), or None when the search fails. */
  function PushIpAndTime(field: string): (r: Option<(string, string)>)
    ensures r.None? <==> StampSearch(field, 0).None?
    ensures r.Some? ==> var m := StampSearch(field, 0).value;
      |r.value.0| == m.1 - m.0 && OccursAt(field, r.value.0, m.0) && OccursAt(field, r.value.1, m.2)
    ensures r.Some? ==> |r.value.1| == 11 && StampAt(r.value.1, 0)
    ensures r.Some? ==> forall k | 0 <= k < |r.value.0| :: IsDigitOrDot(r.value.0[k])
    ensures r.Some? ==> Contains(field, r.value.0) && Contains(field, r.value.1)
  {
    var m := StampSearch(field, 0);
    if m.None? then None
    else
      var ip, stamp := field[m.value.0..m.value.1], field[m.value.2..m.value.2 + 11];
      assert OccursAt(field, ip, m.value.0) && OccursAt(field, stamp, m.value.2);
      assert forall k | 0 <= k < |ip| :: ip[k] == field[m.value.0 + k];
      Some((ip, stamp))
  }

  /** "1.2.3.4 05/06 12:34" splits into its address and its time text. */
  lemma PushFieldWithAddress(ip: string, stamp: string)
    requires forall k | 0 <= k < |ip| :: IsDigitOrDot(ip[k])
    requires |stamp| == 11 && StampAt(stamp, 0)
    ensures PushIpAndTime(ip + " " + stamp) == Some((ip, stamp))
  {
    var s := ip + " " + stamp;
    var n := |ip|;
    DigitDotRunOf(ip, " " + stamp);
    assert s == ip + (" " + stamp);
    StampShift(ip + " ", stamp);
    assert StampEnd(s, 0, n) == Some((n, n + 1));
    assert StampSearch(s, 0) == Some((0, n, n + 1));
    assert s[0..n] == ip && s[n + 1..n + 12] == stamp;
  }

  lemma DigitDotRunOf(x: string, y: string)
    requires forall k | 0 <= k < |x| :: IsDigitOrDot(x[k])
    requires y == [] || !IsDigitOrDot(y[0])
    ensures DigitDotRunEnd(x + y, 0) == |x|
  {
    var s := x + y;
    var e := DigitDotRunEnd(s, 0);
    assert forall k | 0 <= k < |x| :: s[k] == x[k];
    assert |x| < |s| ==> s[|x|] == y[0];
    assert forall k | 0 <= k < |x| :: IsDigitOrDot(s[k]);
  }

  lemma StampShift(pre: string, stamp: string)
    requires |stamp| == 11 && StampAt(stamp, 0)
    ensures StampAt(pre + stamp, |pre|)
  {
    var s := pre + stamp;
    assert forall k | 0 <= k < 11 :: s[|pre| + k] == stamp[k];
  }

  /** A field holding only the time text has an empty address. */
  lemma PushFieldWithoutAddress(stamp: string)
    requires |stamp| == 11 && StampAt(stamp, 0)
    ensures PushIpAndTime(stamp) == Some(([], stamp))
  {
    assert DigitDotRunEnd(stamp, 0) == 2;
    assert !StampAt(stamp, 3) && !StampAt(stamp, 2) && !StampAt(stamp, 1);
    assert IsWordChar(stamp[1]) && IsWordChar(stamp[0]);
    assert StampEnd(stamp, 0, 2) == Some((0, 0));
    assert stamp[0..11] == stamp;
  }

  // ---------------------------------------------------------------- datetime.strptime(text, "%m/%d %M:%S")

  function DigitValue(c: char): int {
    c as int - '0' as int
  }

  function TwoDigits(s: string, k: nat): int
    requires k + 2 <= |s|
  {
    DigitValue(s[k]) * 10 + DigitValue(s[k + 1])
  }

  /** Days in a month of 1900, which is not a leap year. */
  function DaysIn1900(month: int): int
    requires 1 <= month <= 12
  {
    if month == 2 then 28
    else if month == 4 || month == 6 || month == 9 || month == 11 then 30
    else 31
  }

  /**
   * The time of a comment: month, day, then the two numbers after the blank as minute
   * and second of a day of 1900. None where strptime raises.
   */
  function ReadPushStamp(t: string): (r: Option<PushStamp>)
    requires |t| == 11 && StampAt(t, 0)
    ensures r.Some? ==> 1 <= r.value.month <= 12 && 1 <= r.value.day <= DaysIn1900(r.value.month)
    ensures r.Some? ==> 0 <= r.value.minute <= 59 && 0 <= r.value.second <= 59
  {
    var month, day, minute, second := TwoDigits(t, 0), TwoDigits(t, 3), TwoDigits(t, 6), TwoDigits(t, 9);
    if 1 <= month <= 12 && 1 <= day <= DaysIn1900(month) && minute <= 59 && second <= 59 then
      Some(PushStamp(month, day, minute, second))
    else None
  }

  /** Renders "MM/DD hh:mm" as a comment shows it. */
  function StampText(month: nat, day: nat, hour: nat, minute: nat): (t: string)
    requires month < 100 && day < 100 && hour < 100 && minute < 100
    ensures |t| == 11 && StampAt(t, 0)
  {
    Pad2(month) + "/" + Pad2(day) + " " + Pad2(hour) + ":" + Pad2(minute)
  }

  /**
   * The hour of a comment is read into the minute field and its minute into the second
   * field; a date 1900 does not have (29 February among them) makes the read fail.
   */
  lemma PushStampReading(month: nat, day: nat, hour: nat, minute: nat)
    requires month < 100 && day < 100 && hour < 100 && minute < 100
    ensures var r := ReadPushStamp(StampText(month, day, hour, minute));
      (r.Some? <==> 1 <= month <= 12 && 1 <= day <= DaysIn1900(month) && hour <= 59 && minute <= 59)
      && (r.Some? ==> r.value == PushStamp(month, day, hour, minute))
  {
    var t := StampText(month, day, hour, minute);
    assert t[0..2] == Pad2(month) && t[3..5] == Pad2(day) && t[6..8] == Pad2(hour) && t[9..11] == Pad2(minute);
    assert TwoDigits(t, 0) == month && TwoDigits(t, 3) == day;
    assert TwoDigits(t, 6) == hour && TwoDigits(t, 9) == minute;
  }

  /** parser_push_ipdatetime: the address text and the time, or None where it returns None or strptime raises. */
  function ParsePushIpDatetime(field: string): (r: Option<(string, PushStamp)>)
    ensures r.Some? ==> PushIpAndTime(field).Some? && r.value.0 == PushIpAndTime(field).value.0
    ensures PushIpAndTime(field).None? ==> r.None?
    ensures PushIpAndTime(field).Some? ==>
      && (r.Some? <==> ReadPushStamp(PushIpAndTime(field).value.1).Some?)
      && (r.Some? ==> r.value.1 == ReadPushStamp(PushIpAndTime(field).value.1).value)
  {
    match PushIpAndTime(field)
    case None => None
    case Some((ip, text)) =>
      match ReadPushStamp(text)
      case None => None
      case Some(stamp) => Some((ip, stamp))
  }

  /**
   * A comment field "ip MM/DD hh:mm" reads as the address and the time with the hour as
   * minute and the minute as second, exactly when 1900 has that date and both numbers are
   * below 60.
   */
  lemma PushFieldReading(ip: string, month: nat, day: nat, hour: nat, minute: nat)
    requires forall k | 0 <= k < |ip| :: IsDigitOrDot(ip[k])
    requires month < 100 && day < 100 && hour < 100 && minute < 100
    ensures var r := ParsePushIpDatetime(ip + " " + StampText(month, day, hour, minute));
      && (r.Some? <==> 1 <= month <= 12 && 1 <= day <= DaysIn1900(month) && hour <= 59 && minute <= 59)
      && (r.Some? ==> r.value == (ip, PushStamp(month, day, hour, minute)))
  {
    PushFieldWithAddress(ip, StampText(month, day, hour, minute));
    PushStampReading(month, day, hour, minute);
  }
}
