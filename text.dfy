/**
 * String primitives the crawler borrows from Python: str.split, str.join,
 * str.strip, the `in` substring test, and the regular-expression rewrites
 * re.sub(r'(\s)+', ' ', ...) and re.sub('\.html', '', ...).
 */
module Text {
  import opened Wrappers

  /** Python's str.isspace(), which is also what `\s` matches in a str pattern. */
  predicate IsSpace(c: char) {
    ('\t' <= c <= '\r') || ('\U{1C}' <= c <= '\U{1F}') || c == ' ' || c == '\U{85}' || c == '\U{A0}'
    || c == '\U{1680}' || ('\U{2000}' <= c <= '\U{200A}') || c == '\U{2028}' || c == '\U{2029}'
    || c == '\U{202F}' || c == '\U{205F}' || c == '\U{3000}'
  }

  predicate IsDigit(c: char) {
    '0' <= c <= '9'
  }

  /** `\w`: ASCII letters, digits and '_', the Latin-1 letters and numerals, and code points from U+0100 outside the symbol blocks. */
  predicate IsWordChar(c: char) {
    ('0' <= c <= '9') || ('A' <= c <= 'Z') || ('a' <= c <= 'z') || c == '_'
    || c == '\U{AA}' || c == '\U{B2}' || c == '\U{B3}' || c == '\U{B5}' || c == '\U{B9}' || c == '\U{BA}'
    || ('\U{BC}' <= c <= '\U{BE}') || ('\U{C0}' <= c <= '\U{D6}') || ('\U{D8}' <= c <= '\U{F6}')
    || ('\U{F8}' <= c <= '\U{FF}')
    || (c >= '\U{100}' && !IsSymbolBlock(c))
  }

  /** Punctuation and symbol blocks above U+00FF that \w does not match. */
  predicate IsSymbolBlock(c: char) {
    ('\U{2000}' <= c <= '\U{2BFF}') || ('\U{3000}' <= c <= '\U{303F}') || ('\U{FF00}' <= c <= '\U{FF0F}')
    || ('\U{FF1A}' <= c <= '\U{FF20}') || ('\U{FF3B}' <= c <= '\U{FF40}') || ('\U{FF5B}' <= c <= '\U{FF65}')
  }

  predicate HasNoSpace(s: string) {
    forall i | 0 <= i < |s| :: !IsSpace(s[i])
  }

  /** `sub` occurs in `s` starting at index i. */
  predicate OccursAt(s: string, sub: string, i: int) {
    0 <= i <= |s| - |sub| && s[i..i + |sub|] == sub
  }

  /** `sub in s` for strings. */
  predicate Contains(s: string, sub: string) {
    exists i | 0 <= i <= |s| - |sub| :: OccursAt(s, sub, i)
  }

  // ---------------------------------------------------------------- strip

  /** s.lstrip() with the characters `drop` accepts. */
  function TrimLeft(s: string, drop: char -> bool): (r: string)
    ensures |r| <= |s| && r == s[|s| - |r|..]
    ensures r == [] || !drop(r[0])
    ensures forall i | 0 <= i < |s| - |r| :: drop(s[i])
  {
    if s != [] && drop(s[0]) then TrimLeft(s[1..], drop) else s
  }

  /** s.rstrip() with the characters `drop` accepts. */
  function TrimRight(s: string, drop: char -> bool): (r: string)
    ensures |r| <= |s| && r == s[..|r|]
    ensures r == [] || !drop(r[|r| - 1])
    ensures forall i | |r| <= i < |s| :: drop(s[i])
  {
    if s != [] && drop(s[|s| - 1]) then TrimRight(s[..|s| - 1], drop) else s
  }

  /** s.strip(chars): both ends trimmed. */
  function Trim(s: string, drop: char -> bool): (r: string)
  {
    TrimRight(TrimLeft(s, drop), drop)
  }

  /** The result of a strip is a piece of the input whose two ends are kept characters. */
  lemma TrimIsInfix(s: string, drop: char -> bool)
    ensures var r := Trim(s, drop);
      Contains(s, r) && (r == [] || (!drop(r[0]) && !drop(r[|r| - 1])))
  {
    var l := TrimLeft(s, drop);
    var r := TrimRight(l, drop);
    assert r == Trim(s, drop);
    var i := |s| - |l|;
    assert l == s[i..] && r == l[..|r|];
    SliceOfSuffix(s, i, |r|);
    assert OccursAt(s, r, i);
    if r != [] {
      assert r[0] == l[0];
    }
  }

  lemma SliceOfSuffix(s: string, i: nat, n: nat)
    requires i + n <= |s|
    ensures s[i..][..n] == s[i..i + n]
  {
  }

  /** Stripping twice is stripping once. */
  lemma {:induction false} TrimIdempotent(s: string, drop: char -> bool)
    ensures Trim(Trim(s, drop), drop) == Trim(s, drop)
  {
    var l := TrimLeft(s, drop);
    var r := TrimRight(l, drop);
    if r != [] {
      assert r[0] == l[0];
      assert TrimLeft(r, drop) == r;
      assert TrimRight(r, drop) == r;
    } else {
      assert TrimLeft(r, drop) == [];
    }
  }

  /** The characters str.strip() removes with no argument. */
  function Strip(s: string): string {
    Trim(s, IsSpace)
  }

  // ---------------------------------------------------------------- join and split

  /** sep.join(parts). */
  function Join(parts: seq<string>, sep: string): (r: string)
  {
    if parts == [] then []
    else if |parts| == 1 then parts[0]
    else parts[0] + sep + Join(parts[1..], sep)
  }

  /** s.split(sep) for a one-character separator: never empty, and no piece holds the separator. */
  function Split(s: string, sep: char): (r: seq<string>)
    ensures |r| >= 1
    ensures forall k | 0 <= k < |r| :: sep !in r[k]
  {
    if s == [] then [[]]
    else
      var rest := Split(s[1..], sep);
      if s[0] == sep then [[]] + rest
      else [[s[0]] + rest[0]] + rest[1..]
  }

  /** Splitting then joining with the same separator gives the string back. */
  lemma {:induction false} JoinSplit(s: string, sep: char)
    ensures Join(Split(s, sep), [sep]) == s
  {
    if s != [] {
      var rest := Split(s[1..], sep);
      JoinSplit(s[1..], sep);
      if s[0] == sep {
        assert Split(s, sep) == [[]] + rest;
      } else {
        var r := Split(s, sep);
        assert r == [[s[0]] + rest[0]] + rest[1..];
        if |rest| == 1 {
          assert Join(r, [sep]) == [s[0]] + rest[0];
        } else {
          assert r[1..] == rest[1..];
          assert Join(rest, [sep]) == rest[0] + [sep] + Join(rest[1..], [sep]);
        }
      }
    }
  }

  /** The last piece of s.split('/') is what follows the last separator. */
  lemma {:induction false} SplitLast(p: string, q: string, sep: char)
    requires sep !in q
    ensures var r := Split(p + [sep] + q, sep); r[|r| - 1] == q
  {
    if p == [] {
      assert [sep] + q == p + [sep] + q;
      SplitNoSep(q, sep);
      assert Split([sep] + q, sep) == [[]] + Split(q, sep) by {
        assert ([sep] + q)[1..] == q;
      }
    } else {
      SplitLast(p[1..], q, sep);
      assert (p + [sep] + q)[1..] == p[1..] + [sep] + q;
      var rest := Split(p[1..] + [sep] + q, sep);
      assert |rest| >= 2 by {
        SplitCount(p[1..] + [sep] + q, sep, |p[1..]|);
      }
    }
  }

  lemma {:induction false} SplitNoSep(q: string, sep: char)
    requires sep !in q
    ensures Split(q, sep) == [q]
  {
    if q != [] {
      SplitNoSep(q[1..], sep);
      assert [q[0]] + q[1..] == q;
    }
  }

  /** A string that holds the separator splits into at least two pieces. */
  lemma {:induction false} SplitCount(s: string, sep: char, k: nat)
    requires k < |s| && s[k] == sep
    ensures |Split(s, sep)| >= 2
  {
    if k > 0 {
      SplitCount(s[1..], sep, k - 1);
    }
  }

  // ---------------------------------------------------------------- whitespace runs

  /** Drops the whitespace at the front of s. */
  function DropSpaces(s: string): (r: string)
    ensures |r| <= |s| && r == s[|s| - |r|..]
    ensures r == [] || !IsSpace(r[0])
  {
    TrimLeft(s, IsSpace)
  }

  /** re.sub(r'(\s)+', ' ', s): every maximal run of whitespace becomes one space. */
  function Collapse(s: string): (r: string)
    ensures |r| <= |s|
    ensures (r == []) == (s == [])
    ensures s != [] && !IsSpace(s[0]) ==> r[0] == s[0]
    ensures s != [] ==> (IsSpace(r[0]) <==> IsSpace(s[0]))
    decreases |s|
  {
    if s == [] then []
    else if IsSpace(s[0]) then [' '] + Collapse(DropSpaces(s[1..]))
    else [s[0]] + Collapse(s[1..])
  }

  predicate NoAdjacentSpaces(s: string) {
    forall i | 0 <= i < |s| - 1 :: !(IsSpace(s[i]) && IsSpace(s[i + 1]))
  }

  /** Collapsing leaves a whitespace-free prefix in place. */
  lemma {:induction false} CollapseWord(w: string, rest: string)
    requires HasNoSpace(w)
    ensures Collapse(w + rest) == w + Collapse(rest)
    decreases |w|
  {
    if w == [] {
      assert w + rest == rest;
    } else {
      var s, tail := w + rest, w[1..];
      assert s[0] == w[0] && !IsSpace(s[0]) && s[1..] == tail + rest;
      assert Collapse(s) == [w[0]] + Collapse(tail + rest);
      assert HasNoSpace(tail) by {
        assert forall i | 0 <= i < |tail| :: tail[i] == w[i + 1];
      }
      CollapseWord(tail, rest);
      assert w == [w[0]] + tail;
    }
  }

  /** Non-empty words without whitespace, joined by single spaces, are left as they are by the collapse. */
  lemma {:induction false} CollapseJoinedWords(parts: seq<string>)
    requires forall k | 0 <= k < |parts| :: parts[k] != [] && HasNoSpace(parts[k])
    ensures Collapse(Join(parts, " ")) == Join(parts, " ")
    decreases |parts|
  {
    if |parts| == 1 {
      CollapseWord(parts[0], []);
      assert parts[0] + [] == parts[0];
    } else if |parts| > 1 {
      var tail := parts[1..];
      assert forall k | 0 <= k < |tail| :: tail[k] == parts[k + 1];
      var rest := Join(tail, " ");
      CollapseJoinedWords(tail);
      assert rest != [] && rest[0] == tail[0][0] by {
        if |tail| > 1 {
          assert rest == tail[0] + " " + Join(tail[1..], " ");
        }
      }
      assert DropSpaces(rest) == rest;
      assert Collapse(" " + rest) == " " + Collapse(rest) by {
        assert (" " + rest)[0] == ' ' && (" " + rest)[1..] == rest;
      }
      assert parts[0] + " " + rest == parts[0] + (" " + rest);
      CollapseWord(parts[0], " " + rest);
    }
  }

  /** After collapsing, no two whitespace characters stand side by side. */
  lemma {:induction false} CollapseNoAdjacentSpaces(s: string)
    ensures NoAdjacentSpaces(Collapse(s))
    decreases |s|
  {
    if s != [] {
      if IsSpace(s[0]) {
        var t := DropSpaces(s[1..]);
        CollapseNoAdjacentSpaces(t);
        NoAdjacentCons(' ', Collapse(t));
      } else {
        CollapseNoAdjacentSpaces(s[1..]);
        NoAdjacentCons(s[0], Collapse(s[1..]));
      }
    }
  }

  lemma NoAdjacentCons(c: char, r: string)
    requires NoAdjacentSpaces(r) && (r == [] || !IsSpace(c) || !IsSpace(r[0]))
    ensures NoAdjacentSpaces([c] + r)
  {
    var cr := [c] + r;
    forall i | 0 <= i < |cr| - 1 ensures !(IsSpace(cr[i]) && IsSpace(cr[i + 1])) {
      if i > 0 {
        assert cr[i] == r[i - 1] && cr[i + 1] == r[i];
      }
    }
  }

  /** A whitespace-free prefix of the collapsed string is a prefix of the original. */
  lemma {:induction false} CollapsePrefix(s: string, w: string)
    requires HasNoSpace(w) && |w| <= |Collapse(s)| && Collapse(s)[..|w|] == w
    ensures |w| <= |s| && s[..|w|] == w
    decreases |s|
  {
    if w != [] {
      var r := Collapse(s);
      assert s != [] && r[0] == w[0] && !IsSpace(r[0]);
      var c := Collapse(s[1..]);
      assert r == [s[0]] + c;
      PrefixTail(s[0], c, w);
      assert HasNoSpace(w[1..]);
      CollapsePrefix(s[1..], w[1..]);
      PrefixCons(s, w);
    }
  }

  /** A prefix of [x] + c, less its first character, is a prefix of c. */
  lemma PrefixTail(x: char, c: string, w: string)
    requires w != [] && |w| <= 1 + |c| && ([x] + c)[..|w|] == w
    ensures |w| - 1 <= |c| && c[..|w| - 1] == w[1..]
  {
    assert ([x] + c)[..|w|] == [x] + c[..|w| - 1];
  }

  /** Equal first characters and equal continuations make a prefix. */
  lemma PrefixCons(s: string, w: string)
    requires s != [] && w != [] && s[0] == w[0] && |w| - 1 <= |s| - 1 && s[1..][..|w| - 1] == w[1..]
    ensures s[..|w|] == w
  {
    assert s[..|w|] == [s[0]] + s[1..][..|w| - 1];
    assert w == [w[0]] + w[1..];
  }

  /** An occurrence past the first character of [c] + b is an occurrence in b. */
  lemma OccursDrop(c: char, b: string, w: string, i: int)
    requires OccursAt([c] + b, w, i) && i >= 1
    ensures OccursAt(b, w, i - 1)
  {
    assert ([c] + b)[i..i + |w|] == b[i - 1..i - 1 + |w|];
  }

  /** An occurrence in b is an occurrence in pre + b, shifted by |pre|. */
  lemma OccursShift(pre: string, b: string, w: string, j: int)
    requires OccursAt(b, w, j)
    ensures OccursAt(pre + b, w, |pre| + j)
  {
    assert (pre + b)[|pre| + j..|pre| + j + |w|] == b[j..j + |w|];
  }

  /** Collapsing whitespace creates no new occurrence of a whitespace-free word. */
  lemma {:induction false} CollapseKeepsWords(s: string, w: string)
    requires w != [] && HasNoSpace(w) && Contains(Collapse(s), w)
    ensures Contains(s, w)
    decreases |s|
  {
    var r := Collapse(s);
    var i :| 0 <= i <= |r| - |w| && OccursAt(r, w, i);
    if IsSpace(s[0]) {
      var t := DropSpaces(s[1..]);
      assert OccursAt(Collapse(t), w, i - 1) by {
        assert r == [' '] + Collapse(t);
        assert r[i] == w[0] && !IsSpace(w[0]);
        OccursDrop(' ', Collapse(t), w, i);
      }
      CollapseKeepsWords(t, w);
      ContainsInSuffix(s, t, w);
    } else if i == 0 {
      assert r[..|w|] == w;
      CollapsePrefix(s, w);
      assert OccursAt(s, w, 0);
    } else {
      assert OccursAt(Collapse(s[1..]), w, i - 1) by {
        assert r == [s[0]] + Collapse(s[1..]);
        OccursDrop(s[0], Collapse(s[1..]), w, i);
      }
      CollapseKeepsWords(s[1..], w);
      ContainsInSuffix(s, s[1..], w);
    }
  }

  /** A word found in a suffix of s is found in s. */
  lemma ContainsInSuffix(s: string, t: string, w: string)
    requires |t| <= |s| && t == s[|s| - |t|..] && Contains(t, w)
    ensures Contains(s, w)
  {
    var j :| 0 <= j <= |t| - |w| && OccursAt(t, w, j);
    var pre := s[..|s| - |t|];
    assert s == pre + t;
    OccursShift(pre, t, w, j);
  }

  /** A whitespace-free word does not straddle the space in p + " " + rest. */
  lemma NoSpaceStraddle(p: string, rest: string, w: string, i: int)
    requires HasNoSpace(w) && OccursAt(p + " " + rest, w, i)
    ensures i + |w| <= |p| || i > |p|
  {
    var s := p + " " + rest;
    assert s[|p|] == ' ';
    assert forall k | 0 <= k < |w| :: w[k] == s[i + k];
  }

  /** A whitespace-free word found in pieces joined by ' ' lies within one piece. */
  lemma {:induction false} JoinKeepsWords(parts: seq<string>, w: string)
    requires w != [] && HasNoSpace(w) && Contains(Join(parts, " "), w)
    ensures exists k :: 0 <= k < |parts| && Contains(parts[k], w)
  {
    var s := Join(parts, " ");
    var i :| 0 <= i <= |s| - |w| && OccursAt(s, w, i);
    assert 0 <= i <= |s| - |w| && s[i..i + |w|] == w;
    if |parts| == 1 {
      assert OccursAt(parts[0], w, i);
    } else {
      var p := parts[0];
      var rest := Join(parts[1..], " ");
      assert s == p + " " + rest;
      if i + |w| <= |p| {
        assert s[i..i + |w|] == p[i..i + |w|];
        assert OccursAt(p, w, i);
      } else {
        NoSpaceStraddle(p, rest, w, i);
        assert s[|p| + 1..] == rest;
        assert s[i..i + |w|] == s[|p| + 1..][i - |p| - 1..i - |p| - 1 + |w|];
        assert OccursAt(rest, w, i - |p| - 1);
        JoinKeepsWords(parts[1..], w);
        var k :| 0 <= k < |parts[1..]| && Contains(parts[1..][k], w);
        assert Contains(parts[k + 1], w);
      }
    }
  }

  /** Every character of s satisfies P. */
  predicate AllChars(s: string, P: char -> bool) {
    forall k | 0 <= k < |s| :: P(s[k])
  }

  /** Collapsing introduces no character but the single space. */
  lemma {:induction false} CollapseChars(s: string, P: char -> bool)
    requires AllChars(s, P) && P(' ')
    ensures AllChars(Collapse(s), P)
    decreases |s|
  {
    if s != [] {
      if IsSpace(s[0]) {
        var t := DropSpaces(s[1..]);
        AllCharsSuffix(s, t, P);
        CollapseChars(t, P);
        AllCharsCons(' ', Collapse(t), P);
      } else {
        AllCharsSuffix(s, s[1..], P);
        CollapseChars(s[1..], P);
        AllCharsCons(s[0], Collapse(s[1..]), P);
      }
    }
  }

  lemma AllCharsCons(c: char, r: string, P: char -> bool)
    requires P(c) && AllChars(r, P)
    ensures AllChars([c] + r, P)
  {
    forall k | 0 <= k < |r| + 1 ensures P(([c] + r)[k]) {
      if k > 0 {
        assert ([c] + r)[k] == r[k - 1];
      }
    }
  }

  /** A suffix keeps the property every character has. */
  lemma AllCharsSuffix(s: string, t: string, P: char -> bool)
    requires AllChars(s, P) && |t| <= |s| && t == s[|s| - |t|..]
    ensures AllChars(t, P)
  {
    forall k | 0 <= k < |t| ensures P(t[k]) {
      assert t[k] == s[|s| - |t| + k];
    }
  }

  /** Joining introduces no character but those of the separator. */
  lemma {:induction false} JoinChars(parts: seq<string>, sep: string, P: char -> bool)
    requires forall k | 0 <= k < |parts| :: AllChars(parts[k], P)
    requires AllChars(sep, P)
    ensures AllChars(Join(parts, sep), P)
  {
    if |parts| > 1 {
      JoinChars(parts[1..], sep, P);
      var rest := Join(parts[1..], sep);
      var s := parts[0] + sep + rest;
      assert forall k | 0 <= k < |s| :: s[k] == (if k < |parts[0]| then parts[0][k]
        else if k < |parts[0]| + |sep| then sep[k - |parts[0]|] else rest[k - |parts[0]| - |sep|]);
    }
  }

  /** [x for x in s if keep(x)]. */
  function Filter<T>(s: seq<T>, keep: T -> bool): (r: seq<T>)
    ensures |r| <= |s|
    ensures forall k | 0 <= k < |r| :: keep(r[k]) && r[k] in s
    ensures forall k | 0 <= k < |s| && keep(s[k]) :: s[k] in r
  {
    if s == [] then []
    else
      var rest := Filter(s[1..], keep);
      assert forall k | 0 <= k < |rest| :: rest[k] in s[1..];
      if keep(s[0]) then [s[0]] + rest else rest
  }

  /** The kept elements of a + b are those of a followed by those of b. */
  lemma {:induction false} FilterAppend<T>(a: seq<T>, b: seq<T>, keep: T -> bool)
    ensures Filter(a + b, keep) == Filter(a, keep) + Filter(b, keep)
    decreases |a|
  {
    if a == [] {
      assert a + b == b;
    } else {
      assert (a + b)[0] == a[0] && (a + b)[1..] == a[1..] + b;
      FilterAppend(a[1..], b, keep);
    }
  }

  /** One element is kept, once, exactly when `keep` accepts it; with FilterAppend this fixes order and multiplicity. */
  lemma FilterOne<T>(x: T, keep: T -> bool)
    ensures Filter([x], keep) == if keep(x) then [x] else []
  {
    assert [x][1..] == [];
  }

  // ---------------------------------------------------------------- re.sub('\.html', '', s)

  /** Deletes every non-overlapping occurrence of `pat`, scanning left to right, as re.sub does. */
  function RemoveAll(s: string, pat: string): (r: string)
    requires pat != []
    ensures |r| <= |s|
    decreases |s|
  {
    if |s| >= |pat| && s[..|pat|] == pat then RemoveAll(s[|pat|..], pat)
    else if s == [] then []
    else [s[0]] + RemoveAll(s[1..], pat)
  }

  /** An occurrence in the tail of x is an occurrence in x. */
  lemma ContainsInTail(x: string, pat: string)
    requires x != []
    ensures Contains(x[1..], pat) ==> Contains(x, pat)
  {
    if Contains(x[1..], pat) {
      var j :| 0 <= j <= |x[1..]| - |pat| && OccursAt(x[1..], pat, j);
      assert x[j + 1..j + 1 + |pat|] == x[1..][j..j + |pat|];
      assert OccursAt(x, pat, j + 1);
    }
  }

  /** x + '.html' does not start with '.html' when x is non-empty and holds no '.html'. */
  lemma NotHtmlPrefix(x: string)
    requires x != [] && !Contains(x, ".html")
    ensures var s := x + ".html"; !(|s| >= 5 && s[..5] == ".html")
  {
    var s := x + ".html";
    if |x| >= 5 {
      assert s[..5] == x[0..0 + 5];
      assert !OccursAt(x, ".html", 0);
    } else {
      assert s[..5][|x|] == '.';
      assert ".html"[|x|] != '.';
    }
  }

  /** Removing '.html' from x + '.html' gives x back when x holds no '.html' of its own. */
  lemma {:induction false} RemoveHtmlSuffix(x: string)
    requires !Contains(x, ".html")
    ensures RemoveAll(x + ".html", ".html") == x
  {
    var pat := ".html";
    var s := x + pat;
    if x == [] {
      assert s[..|pat|] == pat;
      assert s[|pat|..] == [];
    } else {
      NotHtmlPrefix(x);
      ContainsInTail(x, pat);
      RemoveHtmlSuffix(x[1..]);
      assert s[1..] == x[1..] + pat;
    }
  }

  // ---------------------------------------------------------------- numbers

  /**
   * int(s) on what a \d group captures: the value of a string of ASCII digits, None for
   * the empty one. Strings with other characters are refused, although int() itself also
   * takes surrounding whitespace, a sign and underscores; no such string reaches it here.
   */
  function ParseDecimal(s: string): (r: Option<nat>)
    ensures r.Some? <==> (s != [] && forall i | 0 <= i < |s| :: IsDigit(s[i]))
  {
    if s == [] then None
    else if !IsDigit(s[|s| - 1]) then None
    else if |s| == 1 then Some((s[0] as int - '0' as int) as nat)
    else match ParseDecimal(s[..|s| - 1])
      case None => None
      case Some(v) => Some(v * 10 + (s[|s| - 1] as int - '0' as int))
  }

  function Pow10(k: nat): (r: nat)
    ensures r >= 1
  {
    if k == 0 then 1 else 10 * Pow10(k - 1)
  }

  /** One more digit: the value so far times ten, plus the digit. */
  lemma ParseDecimalSnoc(s: string, c: char)
    requires ParseDecimal(s).Some? && IsDigit(c)
    ensures ParseDecimal(s + [c]) == Some(ParseDecimal(s).value * 10 + (c as int - '0' as int))
  {
    assert (s + [c])[..|s|] == s;
  }

  lemma ShiftDigits(va: nat, p: nat, vb: nat, d: int)
    ensures (va * p + vb) * 10 + d == va * (10 * p) + (vb * 10 + d)
  {
    calc {
      (va * p + vb) * 10 + d;
      (va * p) * 10 + vb * 10 + d;
      va * (p * 10) + vb * 10 + d;
    }
  }

  /** A digit string read in two parts: the first part's value shifted past the second's digits, plus the second's. */
  lemma {:induction false} ParseDecimalAppend(a: string, b: string)
    requires ParseDecimal(a).Some? && ParseDecimal(b).Some?
    ensures ParseDecimal(a + b) == Some(ParseDecimal(a).value * Pow10(|b|) + ParseDecimal(b).value)
    decreases |b|
  {
    var c := b[|b| - 1];
    var d := c as int - '0' as int;
    var b' := b[..|b| - 1];
    assert b == b' + [c];
    if |b| == 1 {
      ParseDecimalSnoc(a, c);
    } else {
      assert ParseDecimal(b').Some? by {
        assert forall i | 0 <= i < |b'| :: b'[i] == b[i];
      }
      ParseDecimalAppend(a, b');
      assert a + b == (a + b') + [c];
      ParseDecimalSnoc(a + b', c);
      ParseDecimalSnoc(b', c);
      ShiftDigits(ParseDecimal(a).value, Pow10(|b'|), ParseDecimal(b').value, d);
    }
  }

  /** str(n): the decimal digits of n, with no leading zero. */
  function DecimalText(n: nat): (r: string)
    ensures r != [] && forall i | 0 <= i < |r| :: IsDigit(r[i])
    ensures |r| > 1 ==> r[0] != '0'
  {
    if n < 10 then [('0' as int + n) as char] else DecimalText(n / 10) + [('0' as int + n % 10) as char]
  }

  /** int(str(n)) == n. */
  lemma {:induction false} ParseDecimalText(n: nat)
    ensures ParseDecimal(DecimalText(n)) == Some(n)
  {
    if n >= 10 {
      ParseDecimalText(n / 10);
      var s := DecimalText(n);
      assert s[..|s| - 1] == DecimalText(n / 10);
    }
  }

  /** Two-digit zero-padded rendering, as strftime's %m, %d, %H, %M and %S produce. */
  function Pad2(n: nat): (r: string)
    requires n < 100
    ensures |r| == 2 && IsDigit(r[0]) && IsDigit(r[1])
    ensures (r[0] as int - '0' as int) * 10 + (r[1] as int - '0' as int) == n
  {
    [('0' as int + n / 10) as char, ('0' as int + n % 10) as char]
  }
}
