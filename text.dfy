/**
 * The JavaScript string built-ins the application relies on, stated over
 * `string` (a sequence of `char`):
 *   - `String.prototype.trim` and the regular-expression class `\s`,
 *   - `String.prototype.toLowerCase` (ASCII letters only, see IsUpper),
 *   - `Array.prototype.join` on strings and `String.prototype.split` on one character,
 *   - `s.replace(/\n\s*\n/g, '\n\n')`, the blank-line collapsing used by the share texts,
 *   - the decimal rendering of a natural number in a template literal.
 */
module Text {
  import Lists

  // ---------------------------------------------------------------------------
  // Whitespace and trim
  // ---------------------------------------------------------------------------

  /** The ECMAScript WhiteSpace and LineTerminator characters: exactly what `\s`
      matches and what `trim` removes. Below U+0080 these are tab, line feed,
      vertical tab, form feed, carriage return and space; above it, the
      characters of WideWhitespace. */
  predicate IsSpace(c: char) {
    ('\t' <= c <= '\r') || c == ' ' || ('\U{A0}' <= c && c in WideWhitespace)
  }

  /** No-break space, the byte order mark, the other space separators, and the
      line and paragraph separators. */
  const WideWhitespace: set<char> := {
    '\U{A0}', '\U{1680}',
    '\U{2000}', '\U{2001}', '\U{2002}', '\U{2003}', '\U{2004}', '\U{2005}',
    '\U{2006}', '\U{2007}', '\U{2008}', '\U{2009}', '\U{200A}',
    '\U{2028}', '\U{2029}', '\U{202F}', '\U{205F}', '\U{3000}', '\U{FEFF}'
  }

  /** The six ASCII whitespace characters: tab, line feed, vertical tab, form
      feed, carriage return and space. */
  const AsciiWhitespace: set<char> := {'\t', '\n', '\U{B}', '\U{C}', '\r', ' '}

  /** IsSpace is the whitespace of `String.prototype.trim` and of `\s`, listed
      character by character. */
  lemma {:induction false} IsSpaceListed(c: char)
    ensures IsSpace(c) <==> c in AsciiWhitespace + WideWhitespace
  {
  }

  predicate AllSpace(s: string) {
    forall i :: 0 <= i < |s| ==> IsSpace(s[i])
  }

  /** Neither end of `s` is whitespace (vacuously true of the empty string). */
  predicate TrimmedEnds(s: string) {
    s == [] || (!IsSpace(s[0]) && !IsSpace(s[|s| - 1]))
  }

  /** The number of whitespace characters at the start of `s`. */
  function LeadingSpaces(s: string): (n: nat)
    ensures n <= |s| && AllSpace(s[..n])
    ensures n == |s| || !IsSpace(s[n])
    decreases |s|
  {
    if s != [] && IsSpace(s[0]) then
      var n := LeadingSpaces(s[1..]);
      LeadingStep(s, n);
      n + 1
    else 0
  }

  lemma {:induction false} LeadingStep(s: string, n: nat)
    requires s != [] && IsSpace(s[0])
    requires n <= |s| - 1 && AllSpace(s[1..][..n])
    ensures AllSpace(s[..n + 1])
  {
    forall i | 0 <= i <= n ensures IsSpace(s[i]) {
      if i > 0 {
        assert s[i] == s[1..][..n][i - 1];
      }
    }
  }

  /** The number of whitespace characters at the end of `s`. */
  function TrailingSpaces(s: string): (n: nat)
    ensures n <= |s| && AllSpace(s[|s| - n..])
    ensures n == |s| || !IsSpace(s[|s| - n - 1])
    decreases |s|
  {
    if s != [] && IsSpace(s[|s| - 1]) then
      var n := TrailingSpaces(s[..|s| - 1]);
      TrailingStep(s, n);
      n + 1
    else 0
  }

  lemma {:induction false} TrailingStep(s: string, n: nat)
    requires s != [] && IsSpace(s[|s| - 1])
    requires n <= |s| - 1 && AllSpace(s[..|s| - 1][|s| - 1 - n..])
    ensures AllSpace(s[|s| - (n + 1)..])
  {
    forall i | |s| - (n + 1) <= i < |s| ensures IsSpace(s[i]) {
      if i < |s| - 1 {
        assert s[i] == s[..|s| - 1][|s| - 1 - n..][i - (|s| - 1 - n)];
      }
    }
  }

  /** `String.prototype.trim`: the result is the infix of `s` left after removing
      whitespace from both ends, and neither of its ends is whitespace. */
  function Trim(s: string): (r: string)
    ensures TrimmedEnds(r)
    ensures var a := LeadingSpaces(s);
      a + |r| <= |s| && r == s[a..a + |r|] && AllSpace(s[..a]) && AllSpace(s[a + |r|..])
    ensures r == [] <==> AllSpace(s)
  {
    var a := LeadingSpaces(s);
    var b := TrailingSpaces(s[a..]);
    TrimShapeEnds(s, a, b);
    TrimShapeInfix(s, a, b);
    TrimShapeEmpty(s, a, b);
    s[a..|s| - b]
  }

  lemma {:induction false} TrimShapeEnds(s: string, a: nat, b: nat)
    requires a <= |s| && (a == |s| || !IsSpace(s[a]))
    requires b <= |s| - a && (b == |s| - a || !IsSpace(s[a..][|s| - a - b - 1]))
    ensures TrimmedEnds(s[a..|s| - b])
  {
    var r := s[a..|s| - b];
    if r != [] {
      assert r[0] == s[a];
      assert r[|r| - 1] == s[a..][|s| - a - b - 1];
    }
  }

  lemma {:induction false} TrimShapeEmpty(s: string, a: nat, b: nat)
    requires a <= |s| && AllSpace(s[..a]) && (a == |s| || !IsSpace(s[a]))
    requires b <= |s| - a && AllSpace(s[a..][|s| - a - b..])
    ensures s[a..|s| - b] == [] <==> AllSpace(s)
  {
    if a == |s| {
      assert s[..a] == s;
    } else {
      assert s[a..][0] == s[a];
      assert |s| - a - b > 0;
    }
  }

  lemma {:induction false} TrimShapeInfix(s: string, a: nat, b: nat)
    requires a <= |s| && b <= |s| - a && AllSpace(s[a..][|s| - a - b..])
    ensures var r := s[a..|s| - b];
      a + |r| <= |s| && r == s[a..a + |r|] && AllSpace(s[a + |r|..])
  {
    assert s[a..][|s| - a - b..] == s[|s| - b..];
  }

  /** Whitespace followed by a non-space character: the leading run is exactly the
      whitespace. */
  lemma {:induction false} LeadingSpacesFramed(w: string, c: string)
    requires AllSpace(w)
    requires c == [] || !IsSpace(c[0])
    ensures LeadingSpaces(w + c) == |w|
    decreases |w|
  {
    if w != [] {
      assert (w + c)[1..] == w[1..] + c;
      LeadingSpacesFramed(w[1..], c);
    } else {
      assert w + c == c;
    }
  }

  /** A non-space character followed by whitespace: the trailing run is exactly
      the whitespace. */
  lemma {:induction false} TrailingSpacesFramed(c: string, w: string)
    requires AllSpace(w)
    requires c == [] || !IsSpace(c[|c| - 1])
    ensures TrailingSpaces(c + w) == |w|
    decreases |w|
  {
    if w != [] {
      assert (c + w)[..|c + w| - 1] == c + w[..|w| - 1];
      TrailingSpacesFramed(c, w[..|w| - 1]);
    } else {
      assert c + w == c;
    }
  }

  /** Trimming is determined by the text between the surrounding whitespace:
      `(w1 + c + w2).trim() == c` whenever `w1` and `w2` are whitespace and `c`
      has no whitespace at either end. */
  lemma {:induction false} TrimFramed(w1: string, c: string, w2: string)
    requires AllSpace(w1) && AllSpace(w2) && TrimmedEnds(c)
    ensures Trim(w1 + c + w2) == c
  {
    var s := w1 + c + w2;
    if c == [] {
      assert s == w1 + w2;
      assert AllSpace(s) by {
        forall i | 0 <= i < |s| ensures IsSpace(s[i]) {
          if i >= |w1| { assert s[i] == w2[i - |w1|]; }
        }
      }
    } else {
      assert s == w1 + (c + w2);
      LeadingSpacesFramed(w1, c + w2);
      assert s[|w1|..] == c + w2;
      TrailingSpacesFramed(c, w2);
      assert s[|w1|..|s| - |w2|] == c;
    }
  }

  /** A string with no whitespace at its ends is its own trim. */
  lemma {:induction false} TrimFixed(s: string)
    requires TrimmedEnds(s)
    ensures Trim(s) == s
  {
    assert [] + s + [] == s;
    TrimFramed([], s, []);
  }

  /** Trimming twice is trimming once. */
  lemma {:induction false} TrimIdempotent(s: string)
    ensures Trim(Trim(s)) == Trim(s)
  {
    var t := Trim(s);
    assert [] + t + [] == t;
    TrimFramed([], t, []);
  }

  // ---------------------------------------------------------------------------
  // Lower case
  // ---------------------------------------------------------------------------

  predicate IsUpper(c: char) {
    'A' <= c <= 'Z'
  }

  /** Lower-case mapping of one character; only the ASCII letters A-Z change. */
  function LowerChar(c: char): (d: char)
    ensures !IsUpper(d)
    ensures IsUpper(c) ==> d as int == c as int + 32
    ensures !IsUpper(c) ==> d == c
    ensures IsSpace(d) <==> IsSpace(c)
  {
    if IsUpper(c) then (c as int + 32) as char else c
  }

  /** `String.prototype.toLowerCase`, restricted to ASCII letters. */
  function ToLower(s: string): (r: string)
    ensures |r| == |s|
    ensures forall i :: 0 <= i < |s| ==> r[i] == LowerChar(s[i])
  {
    seq(|s|, i requires 0 <= i < |s| => LowerChar(s[i]))
  }

  /** Lower-casing is idempotent, keeps every whitespace position and so keeps
      a string free of whitespace at its ends. */
  lemma {:induction false} ToLowerIdempotent(s: string)
    ensures ToLower(ToLower(s)) == ToLower(s)
    ensures TrimmedEnds(s) ==> TrimmedEnds(ToLower(s))
    ensures forall i :: 0 <= i < |s| ==> !IsUpper(ToLower(s)[i])
  {
  }

  // ---------------------------------------------------------------------------
  // Join and split
  // ---------------------------------------------------------------------------

  /** `parts.join(sep)`: the parts in order, with `sep` between neighbours. */
  function Join(parts: seq<string>, sep: string): (r: string)
    ensures |parts| == 0 ==> r == ""
    ensures |parts| == 1 ==> r == parts[0]
    decreases |parts|
  {
    if |parts| == 0 then ""
    else if |parts| == 1 then parts[0]
    else parts[0] + sep + Join(parts[1..], sep)
  }

  /** Joining two non-empty lists puts one separator between the two joins. */
  lemma {:induction false} JoinAppend(a: seq<string>, b: seq<string>, sep: string)
    requires |a| > 0 && |b| > 0
    ensures Join(a + b, sep) == Join(a, sep) + sep + Join(b, sep)
    decreases |a|
  {
    if |a| == 1 {
      assert (a + b)[1..] == b;
    } else {
      assert (a + b)[1..] == a[1..] + b;
      JoinAppend(a[1..], b, sep);
    }
  }

  /** Putting one part in front of a non-empty list of parts. */
  lemma {:induction false} JoinPrepend(a: string, rest: seq<string>, sep: string)
    requires |rest| > 0
    ensures Join([a] + rest, sep) == a + sep + Join(rest, sep)
  {
    JoinAppend([a], rest, sep);
  }

  /** `s.split(sep)` for a one-character separator: the maximal pieces between
      occurrences of `sep`; the empty string splits into one empty piece. */
  function Split(s: string, sep: char): (r: seq<string>)
    ensures |r| > 0
    ensures forall i :: 0 <= i < |r| ==> sep !in r[i]
    decreases |s|
  {
    if |s| == 0 then [""]
    else
      var rest := Split(s[1..], sep);
      if s[0] == sep then [""] + rest
      else [[s[0]] + rest[0]] + rest[1..]
  }

  lemma {:induction false} SplitPiece(a: string, sep: char)
    requires sep !in a
    ensures Split(a, sep) == [a]
    decreases |a|
  {
    if |a| > 0 {
      SplitPiece(a[1..], sep);
      assert [a[0]] + a[1..] == a;
    }
  }

  lemma {:induction false} SplitPieceThenRest(a: string, sep: char, b: string)
    requires sep !in a
    ensures Split(a + [sep] + b, sep) == [a] + Split(b, sep)
    decreases |a|
  {
    var s := a + [sep] + b;
    if |a| == 0 {
      assert s[1..] == b;
    } else {
      assert s[1..] == a[1..] + [sep] + b;
      SplitPieceThenRest(a[1..], sep, b);
      assert [a[0]] + a[1..] == a;
    }
  }

  /** Splitting undoes joining, as long as no part contains the separator. */
  lemma {:induction false} SplitJoin(parts: seq<string>, sep: char)
    requires |parts| > 0
    requires forall i :: 0 <= i < |parts| ==> sep !in parts[i]
    ensures Split(Join(parts, [sep]), sep) == parts
    decreases |parts|
  {
    if |parts| == 1 {
      SplitPiece(parts[0], sep);
    } else {
      SplitJoin(parts[1..], sep);
      SplitPieceThenRest(parts[0], sep, Join(parts[1..], [sep]));
      assert [parts[0]] + parts[1..] == parts;
    }
  }

  /** Every part has no `c` and the separator has no `c`: the join has none. */
  lemma {:induction false} JoinFree(parts: seq<string>, sep: string, c: char)
    requires forall i :: 0 <= i < |parts| ==> c !in parts[i]
    requires c !in sep
    ensures c !in Join(parts, sep)
    decreases |parts|
  {
    if |parts| > 1 {
      JoinFree(parts[1..], sep, c);
    }
  }

  // ---------------------------------------------------------------------------
  // Substrings
  // ---------------------------------------------------------------------------

  /** `s.includes(t)`: `t` occurs in `s` as a contiguous piece. */
  predicate IsInfix(t: string, s: string) {
    exists i, j :: 0 <= i <= j <= |s| && s[i..j] == t
  }

  /** An infix of an infix is an infix. */
  lemma {:induction false} InfixTransitive(t: string, u: string, s: string)
    requires IsInfix(t, u) && IsInfix(u, s)
    ensures IsInfix(t, s)
  {
    var i, j :| 0 <= i <= j <= |u| && u[i..j] == t;
    var k, l :| 0 <= k <= l <= |s| && s[k..l] == u;
    forall x | 0 <= x < j - i
      ensures s[k + i + x] == t[x]
    {
      assert s[k + i + x] == s[k..l][i + x] == u[i + x];
    }
    assert s[k + i..k + j] == t;
  }

  /** Whatever stands around `t`, the result contains `t`. */
  lemma {:induction false} InfixOfConcat(a: string, t: string, b: string)
    ensures IsInfix(t, a + t + b)
  {
    var s := a + t + b;
    assert s[|a|..|a| + |t|] == t;
  }

  /** The concatenation of all the pieces, in order (a template literal). */
  function Concat(pieces: seq<string>): (r: string)
    ensures |pieces| > 0 ==> |r| >= |pieces[0]| && r[..|pieces[0]|] == pieces[0]
    decreases |pieces|
  {
    if pieces == [] then "" else pieces[0] + Concat(pieces[1..])
  }

  /** A concatenation ends with its last piece. */
  lemma {:induction false} ConcatEndsWithLast(pieces: seq<string>)
    requires |pieces| > 0
    ensures |Concat(pieces)| >= |pieces[|pieces| - 1]|
    ensures Concat(pieces)[|Concat(pieces)| - |pieces[|pieces| - 1]|..] == pieces[|pieces| - 1]
    decreases |pieces|
  {
    var last := pieces[|pieces| - 1];
    var tail := pieces[1..];
    var rest := Concat(tail);
    assert Concat(pieces) == pieces[0] + rest;
    if tail == [] {
      assert rest == "";
    } else {
      ConcatEndsWithLast(tail);
      assert tail[|tail| - 1] == last;
      SuffixOfAppend(pieces[0], rest, |last|);
    }
  }

  /** The last n characters of a + b, where b has at least n, are b's. */
  lemma {:induction false} SuffixOfAppend(a: string, b: string, n: nat)
    requires n <= |b|
    ensures (a + b)[|a + b| - n..] == b[|b| - n..]
  {
  }

  /** A text framed by a head and a tail: its three parts read back by position. */
  lemma {:induction false} FramedParts(head: string, m: string, tail: string)
    ensures |head + m + tail| == |head| + |m| + |tail|
    ensures (head + m + tail)[..|head|] == head
    ensures (head + m + tail)[|head|..|head + m + tail| - |tail|] == m
    ensures (head + m + tail)[|head + m + tail| - |tail|..] == tail
    ensures IsInfix(m, head + m + tail) && IsInfix(tail, head + m + tail)
  {
    InfixOfConcat(head, m, tail);
    InfixOfConcat(head + m, tail, "");
    assert head + m + tail + "" == head + m + tail;
  }

  /** Every piece of a concatenation occurs in it. */
  lemma {:induction false} ConcatHasPiece(pieces: seq<string>, k: nat)
    requires k < |pieces|
    ensures IsInfix(pieces[k], Concat(pieces))
    decreases k
  {
    var rest := Concat(pieces[1..]);
    if k == 0 {
      InfixOfConcat("", pieces[0], rest);
      assert "" + pieces[0] + rest == Concat(pieces);
    } else {
      ConcatHasPiece(pieces[1..], k - 1);
      var i, j :| 0 <= i <= j <= |rest| && rest[i..j] == pieces[k];
      var n := |pieces[0]|;
      assert Concat(pieces)[n + i..n + j] == rest[i..j];
    }
  }

  // ---------------------------------------------------------------------------
  // s.replace(/\n\s*\n/g, '\n\n')
  // ---------------------------------------------------------------------------

  /** Index in `t` of the last '\n' inside the maximal whitespace prefix of `t`,
      or -1 when that prefix holds no '\n'. Matching `\n\s*\n` at a '\n' at
      position i of s, the greedy `\s*` backtracks to exactly this '\n' of
      `s[i+1..]`. */
  function LastNewlineInSpace(t: string): (k: int)
    ensures -1 <= k < |t|
    ensures k >= 0 ==> t[k] == '\n' && AllSpace(t[..k + 1]) && AllSpace(t[..k])
    ensures forall j :: 0 <= j < |t| && t[j] == '\n' && AllSpace(t[..j]) ==> j <= k
    decreases |t|
  {
    if t == [] || !IsSpace(t[0]) then -1
    else
      SpacePrefixesOfTail(t);
      var k := LastNewlineInSpace(t[1..]);
      if k >= 0 then k + 1
      else if t[0] == '\n' then 0
      else -1
  }

  lemma {:induction false} SpacePrefixesOfTail(t: string)
    requires t != []
    ensures forall j :: 1 <= j <= |t| && AllSpace(t[..j]) ==> AllSpace(t[1..][..j - 1])
  {
    forall j | 1 <= j <= |t| && AllSpace(t[..j]) ensures AllSpace(t[1..][..j - 1]) {
      assert t[1..][..j - 1] == t[1..j];
    }
  }

  /** `s.replace(/\n\s*\n/g, '\n\n')`: scanning left to right, each '\n' that is
      followed, through whitespace only, by another '\n' starts a match that runs to
      the last such '\n'; the match becomes "\n\n" and scanning resumes after it. */
  function CollapseBlankLines(s: string): (r: string)
    ensures |r| <= |s|
    ensures r == [] <==> s == []
    ensures s != [] && s[0] != '\n' ==> r[0] == s[0]
    decreases |s|
  {
    if s == [] then []
    else if s[0] == '\n' && LastNewlineInSpace(s[1..]) >= 0 then
      "\n\n" + CollapseBlankLines(s[LastNewlineInSpace(s[1..]) + 2..])
    else
      [s[0]] + CollapseBlankLines(s[1..])
  }

  /** Two newlines separated by whitespace only are adjacent. This excludes blank
      lines made of spaces and any three consecutive newlines. */
  predicate BlankLinesCollapsed(s: string) {
    forall i, j :: 0 <= i < j < |s| && s[i] == '\n' && s[j] == '\n' && AllSpace(s[i + 1..j]) ==> j == i + 1
  }

  lemma {:induction false} NoTripleNewline(s: string, i: nat)
    requires BlankLinesCollapsed(s)
    requires i + 2 < |s|
    ensures s[i..i + 3] != "\n\n\n"
  {
    assert s[i + 1..i + 2] == [s[i + 1]];
    assert s[i + 1] == '\n' ==> AllSpace(s[i + 1..i + 2]);
    assert s[i] != '\n' || s[i + 1] != '\n' || s[i + 2] != '\n';
    assert s[i..i + 3] == [s[i], s[i + 1], s[i + 2]];
  }

  lemma {:induction false} BlankLinesCollapsedSuffix(s: string, m: nat)
    requires BlankLinesCollapsed(s) && m <= |s|
    ensures BlankLinesCollapsed(s[m..])
  {
    var t := s[m..];
    forall i, j | 0 <= i < j < |t| && t[i] == '\n' && t[j] == '\n' && AllSpace(t[i + 1..j])
      ensures j == i + 1
    {
      assert t[i + 1..j] == s[m + i + 1..m + j];
    }
  }

  /** Two collapsed strings stay collapsed side by side when the second one's
      whitespace prefix holds no '\n' (or the first holds no '\n' at all). */
  lemma {:induction false} AppendCollapsed(p: string, u: string)
    requires BlankLinesCollapsed(p) && BlankLinesCollapsed(u)
    requires '\n' in p ==> LastNewlineInSpace(u) < 0
    ensures BlankLinesCollapsed(p + u)
  {
    var s := p + u;
    forall i, j | 0 <= i < |p| <= j < |s| && s[i] == '\n' && s[j] == '\n'
      ensures !AllSpace(s[i + 1..j])
    {
      assert p[i] == '\n';
      assert u[j - |p|] == '\n';
      assert s[i + 1..j] == p[i + 1..] + u[..j - |p|];
      NotAllSpaceConcat(p[i + 1..], u[..j - |p|]);
    }
    forall i, j | 0 <= i < j < |s| && s[i] == '\n' && s[j] == '\n' && AllSpace(s[i + 1..j])
      ensures j == i + 1
    {
      if j < |p| {
        assert s[i + 1..j] == p[i + 1..j];
      } else if i >= |p| {
        assert s[i + 1..j] == u[i - |p| + 1..j - |p|];
      }
    }
  }

  /** A '\n' or any character may be put in front of a collapsed `u` whose
      whitespace prefix holds no '\n'. */
  lemma {:induction false} ConsCollapsed(c: char, u: string)
    requires BlankLinesCollapsed(u)
    requires c == '\n' ==> LastNewlineInSpace(u) < 0
    ensures BlankLinesCollapsed([c] + u)
  {
    AppendCollapsed([c], u);
  }

  lemma {:induction false} DoubleNewlineCollapsed(u: string)
    requires BlankLinesCollapsed(u)
    requires LastNewlineInSpace(u) < 0
    ensures BlankLinesCollapsed("\n\n" + u)
  {
    AppendCollapsed("\n\n", u);
  }

  /** Collapsing keeps a leading run of whitespace free of '\n'. */
  lemma {:induction false} CollapseKeepsNewlineFreeLead(t: string)
    requires LastNewlineInSpace(t) < 0
    ensures LastNewlineInSpace(CollapseBlankLines(t)) < 0
    decreases |t|
  {
    if t != [] && IsSpace(t[0]) {
      assert t[0] != '\n';
      CollapseKeepsNewlineFreeLead(t[1..]);
      var r := CollapseBlankLines(t);
      assert r == [t[0]] + CollapseBlankLines(t[1..]);
      assert r[1..] == CollapseBlankLines(t[1..]);
    }
  }

  lemma {:induction false} NotAllSpaceConcat(a: string, b: string)
    requires !AllSpace(b)
    ensures !AllSpace(a + b)
  {
    var i :| 0 <= i < |b| && !IsSpace(b[i]);
    assert (a + b)[|a| + i] == b[i];
  }

  lemma {:induction false} NotAllSpaceConcatSuffix(a: string, b: string)
    requires AllSpace(a) && !AllSpace(a + b)
    ensures !AllSpace(b)
  {
    var i :| 0 <= i < |a + b| && !IsSpace((a + b)[i]);
    assert i >= |a|;
    assert (a + b)[i] == b[i - |a|];
  }

  /** What a match leaves behind starts with no '\n' in its whitespace prefix. */
  lemma {:induction false} AfterMatchLead(t: string)
    requires LastNewlineInSpace(t) >= 0
    ensures LastNewlineInSpace(t[LastNewlineInSpace(t) + 1..]) < 0
  {
    var k := LastNewlineInSpace(t);
    var u := t[k + 1..];
    forall m | 0 <= m < |u| && u[m] == '\n' ensures !AllSpace(u[..m]) {
      assert t[k + 1 + m] == '\n';
      assert !AllSpace(t[..k + 1 + m]);
      assert t[..k + 1 + m] == t[..k + 1] + u[..m];
      NotAllSpaceConcatSuffix(t[..k + 1], u[..m]);
    }
  }

  /** The replacement leaves no blank run: every two newlines separated only
      by whitespace are adjacent, so no three newlines follow each other. */
  lemma {:induction false} CollapseBlankLinesNormal(s: string)
    ensures BlankLinesCollapsed(CollapseBlankLines(s))
    decreases |s|
  {
    if s == [] {
    } else if s[0] == '\n' && LastNewlineInSpace(s[1..]) >= 0 {
      var k := LastNewlineInSpace(s[1..]);
      var rest := s[k + 2..];
      assert rest == s[1..][k + 1..];
      AfterMatchLead(s[1..]);
      CollapseBlankLinesNormal(rest);
      CollapseKeepsNewlineFreeLead(rest);
      DoubleNewlineCollapsed(CollapseBlankLines(rest));
    } else {
      CollapseBlankLinesNormal(s[1..]);
      if s[0] == '\n' {
        CollapseKeepsNewlineFreeLead(s[1..]);
      }
      ConsCollapsed(s[0], CollapseBlankLines(s[1..]));
    }
  }

  /** A string with no blank run is left as it is. */
  lemma {:induction false} CollapseBlankLinesFixes(s: string)
    requires BlankLinesCollapsed(s)
    ensures CollapseBlankLines(s) == s
    decreases |s|
  {
    if s == [] {
    } else if s[0] == '\n' && LastNewlineInSpace(s[1..]) >= 0 {
      var k := LastNewlineInSpace(s[1..]);
      assert s[1..][..k] == s[1..k + 1];
      assert s[k + 1] == '\n';
      assert k == 0;
      BlankLinesCollapsedSuffix(s, 2);
      CollapseBlankLinesFixes(s[2..]);
      CollapseMatch(s);
      assert s == "\n\n" + s[2..];
    } else {
      BlankLinesCollapsedSuffix(s, 1);
      CollapseBlankLinesFixes(s[1..]);
      CollapseCopy(s);
      assert s == [s[0]] + s[1..];
    }
  }

  /** Replacing twice is replacing once. */
  lemma {:induction false} CollapseBlankLinesIdempotent(s: string)
    ensures CollapseBlankLines(CollapseBlankLines(s)) == CollapseBlankLines(s)
  {
    CollapseBlankLinesNormal(s);
    CollapseBlankLinesFixes(CollapseBlankLines(s));
  }

  /** A prefix without '\n' is copied unchanged. */
  lemma {:induction false} CollapseNewlineFreePrefix(p: string, s: string)
    requires '\n' !in p
    ensures CollapseBlankLines(p + s) == p + CollapseBlankLines(s)
    decreases |p|
  {
    if p == [] {
      assert p + s == s;
    } else {
      assert (p + s)[0] == p[0];
      assert (p + s)[1..] == p[1..] + s;
      CollapseNewlineFreePrefix(p[1..], s);
      assert p == [p[0]] + p[1..];
    }
  }

  lemma {:induction false} LastNewlineInSpaceAppend(t: string, y: string)
    requires y != [] && !IsSpace(y[0])
    ensures LastNewlineInSpace(t + y) == LastNewlineInSpace(t)
    decreases |t|
  {
    if t == [] {
      assert t + y == y;
    } else {
      assert (t + y)[1..] == t[1..] + y;
      LastNewlineInSpaceAppend(t[1..], y);
    }
  }

  lemma {:induction false} SliceOfAppend(x: string, y: string, m: nat)
    requires m <= |x|
    ensures (x + y)[m..] == x[m..] + y
  {
  }

  /** A suffix without '\n' that starts with a non-space character is copied
      unchanged: no match can reach into it. */
  lemma {:induction false} CollapseNewlineFreeSuffix(x: string, y: string)
    requires '\n' !in y && y != [] && !IsSpace(y[0])
    ensures CollapseBlankLines(x + y) == CollapseBlankLines(x) + y
    decreases |x|
  {
    if x == [] {
      CollapseNewlineFreePrefix(y, []);
      assert x + y == y + [];
    } else {
      SliceOfAppend(x, y, 1);
      LastNewlineInSpaceAppend(x[1..], y);
      var k := LastNewlineInSpace(x[1..]);
      if x[0] == '\n' && k >= 0 {
        SliceOfAppend(x, y, k + 2);
        CollapseNewlineFreeSuffix(x[k + 2..], y);
        MatchThenSuffix(x, y, k);
      } else {
        CollapseNewlineFreeSuffix(x[1..], y);
        CopyThenSuffix(x, y);
      }
    }
  }

  /** One step of CollapseNewlineFreeSuffix: a match at the front of `x`. */
  lemma {:induction false} MatchThenSuffix(x: string, y: string, k: int)
    requires x != [] && x[0] == '\n' && 0 <= k == LastNewlineInSpace(x[1..])
    requires LastNewlineInSpace((x + y)[1..]) == k
    requires (x + y)[k + 2..] == x[k + 2..] + y
    requires CollapseBlankLines(x[k + 2..] + y) == CollapseBlankLines(x[k + 2..]) + y
    ensures CollapseBlankLines(x + y) == CollapseBlankLines(x) + y
  {
    var s := x + y;
    assert s[0] == '\n';
    CollapseMatch(s);
    CollapseMatch(x);
    Lists.PrependThenAppend("\n\n", CollapseBlankLines(s), CollapseBlankLines(s[k + 2..]),
                      CollapseBlankLines(x), CollapseBlankLines(x[k + 2..]), y);
  }

  /** One step of CollapseNewlineFreeSuffix: the first character of `x` is copied. */
  lemma {:induction false} CopyThenSuffix(x: string, y: string)
    requires x != []
    requires !(x[0] == '\n' && LastNewlineInSpace(x[1..]) >= 0)
    requires LastNewlineInSpace((x + y)[1..]) == LastNewlineInSpace(x[1..])
    requires (x + y)[1..] == x[1..] + y
    requires CollapseBlankLines(x[1..] + y) == CollapseBlankLines(x[1..]) + y
    ensures CollapseBlankLines(x + y) == CollapseBlankLines(x) + y
  {
    var s := x + y;
    assert s[0] == x[0];
    CollapseCopy(s);
    CollapseCopy(x);
    Lists.PrependThenAppend([x[0]], CollapseBlankLines(s), CollapseBlankLines(s[1..]),
                      CollapseBlankLines(x), CollapseBlankLines(x[1..]), y);
  }

  /** The replacement at a match. */
  lemma {:induction false} CollapseMatch(z: string)
    requires z != [] && z[0] == '\n' && LastNewlineInSpace(z[1..]) >= 0
    ensures CollapseBlankLines(z) == "\n\n" + CollapseBlankLines(z[LastNewlineInSpace(z[1..]) + 2..])
  {
  }

  /** The replacement where no match starts. */
  lemma {:induction false} CollapseCopy(z: string)
    requires z != [] && !(z[0] == '\n' && LastNewlineInSpace(z[1..]) >= 0)
    ensures CollapseBlankLines(z) == [z[0]] + CollapseBlankLines(z[1..])
  {
  }

  // ---------------------------------------------------------------------------
  // Lines that are already in collapsed form
  // ---------------------------------------------------------------------------

  /** A line with a visible character and no '\n' starts with no '\n' in its
      whitespace prefix, whatever follows it. */
  lemma {:induction false} VisibleLineLead(a: string, rest: string)
    requires '\n' !in a && !AllSpace(a)
    ensures LastNewlineInSpace(a + rest) < 0
    decreases |a|
  {
    assert (a + rest)[0] == a[0];
    if IsSpace(a[0]) {
      assert a[0] != '\n';
      assert (a + rest)[1..] == a[1..] + rest;
      assert a == [a[0]] + a[1..];
      NotAllSpaceConcatSuffix([a[0]], a[1..]);
      VisibleLineLead(a[1..], rest);
    }
  }

  lemma {:induction false} NewlineFreePrefixCollapsed(p: string, u: string)
    requires '\n' !in p && BlankLinesCollapsed(u)
    ensures BlankLinesCollapsed(p + u)
  {
    AppendCollapsed(p, u);
  }

  /** Lines with no '\n', each empty or holding a visible character, and no two
      empty lines next to each other. */
  predicate WellSpacedLines(lines: seq<string>) {
    && (forall i :: 0 <= i < |lines| ==> '\n' !in lines[i])
    && (forall i :: 0 <= i < |lines| ==> lines[i] == "" || !AllSpace(lines[i]))
    && (forall i :: 0 <= i < |lines| - 1 ==> lines[i] != "" || lines[i + 1] != "")
  }

  /** Concatenating two well-spaced line lists keeps them well spaced, unless
      the seam puts two empty lines next to each other. */
  lemma {:induction false} WellSpacedAppend(a: seq<string>, b: seq<string>)
    requires WellSpacedLines(a) && WellSpacedLines(b)
    requires a != [] && b != [] ==> a[|a| - 1] != "" || b[0] != ""
    ensures WellSpacedLines(a + b)
  {
    var c := a + b;
    forall i | 0 <= i < |c| - 1 ensures c[i] != "" || c[i + 1] != "" {
      if i + 1 < |a| {
        assert c[i] == a[i] && c[i + 1] == a[i + 1];
      } else if i + 1 == |a| {
        assert c[i] == a[|a| - 1] && c[i + 1] == b[0];
      } else {
        assert c[i] == b[i - |a|] && c[i + 1] == b[i + 1 - |a|];
      }
    }
    forall i | 0 <= i < |c| ensures '\n' !in c[i] && (c[i] == "" || !AllSpace(c[i])) {
      if i < |a| { assert c[i] == a[i]; } else { assert c[i] == b[i - |a|]; }
    }
  }

  /** A single line that is empty or holds something visible, and no line break. */
  lemma {:induction false} WellSpacedSingle(line: string)
    requires '\n' !in line && (line == "" || !AllSpace(line))
    ensures WellSpacedLines([line])
  {
  }

  lemma {:induction false} JoinCons(lines: seq<string>)
    requires |lines| >= 2
    ensures Join(lines, "\n") == lines[0] + ("\n" + Join(lines[1..], "\n"))
  {
  }

  /** Well-spaced lines whose first line is not empty: their join starts with
      no '\n' in its whitespace prefix. */
  lemma {:induction false} VisibleFirstLineLead(lines: seq<string>)
    requires |lines| > 0 && WellSpacedLines(lines) && lines[0] != ""
    ensures LastNewlineInSpace(Join(lines, "\n")) < 0
  {
    if |lines| == 1 {
      VisibleLineLead(lines[0], "");
      assert lines[0] + "" == lines[0];
    } else {
      JoinCons(lines);
      VisibleLineLead(lines[0], "\n" + Join(lines[1..], "\n"));
    }
  }

  /** A '\n' put in front of the join of well-spaced lines creates no blank run. */
  lemma {:induction false} NewlineBeforeJoinCollapsed(lines: seq<string>)
    requires |lines| > 0 && WellSpacedLines(lines)
    requires BlankLinesCollapsed(Join(lines, "\n"))
    ensures BlankLinesCollapsed("\n" + Join(lines, "\n"))
  {
    var j := Join(lines, "\n");
    if lines[0] != "" {
      VisibleFirstLineLead(lines);
      ConsCollapsed('\n', j);
    } else if |lines| == 1 {
      ConsCollapsed('\n', j);
    } else {
      NewlineBeforeBlankLineCollapsed(lines);
    }
  }

  lemma {:induction false} NewlineBeforeBlankLineCollapsed(lines: seq<string>)
    requires |lines| > 1 && WellSpacedLines(lines) && lines[0] == ""
    requires BlankLinesCollapsed(Join(lines, "\n"))
    ensures BlankLinesCollapsed("\n" + Join(lines, "\n"))
  {
    var tail := lines[1..];
    assert tail[0] == lines[1] && lines[1] != "";
    assert WellSpacedLines(tail);
    JoinCons(lines);
    VisibleFirstLineLead(tail);
    NewlineBeforeNewline(Join(lines, "\n"), Join(tail, "\n"));
  }

  lemma {:induction false} NewlineBeforeNewline(j: string, j2: string)
    requires j == "\n" + j2 && BlankLinesCollapsed(j) && LastNewlineInSpace(j2) < 0
    ensures BlankLinesCollapsed("\n" + j)
  {
    BlankLinesCollapsedSuffix(j, 1);
    assert j[1..] == j2;
    DoubleNewlineCollapsed(j2);
    assert "\n" + j == "\n\n" + j2;
  }

  /** Joining well-spaced lines with '\n' yields a string the replacement leaves
      alone. */
  lemma {:induction false} WellSpacedJoinCollapsed(lines: seq<string>)
    requires |lines| > 0 && WellSpacedLines(lines)
    ensures BlankLinesCollapsed(Join(lines, "\n"))
    decreases |lines|
  {
    if |lines| == 1 {
      NewlineFreePrefixCollapsed(lines[0], "");
      assert lines[0] + "" == lines[0];
    } else {
      var tail := lines[1..];
      assert WellSpacedLines(tail);
      WellSpacedJoinCollapsed(tail);
      NewlineBeforeJoinCollapsed(tail);
      JoinCons(lines);
      NewlineFreePrefixCollapsed(lines[0], "\n" + Join(tail, "\n"));
    }
  }

  // ---------------------------------------------------------------------------
  // Trim, then collapse blank lines
  // ---------------------------------------------------------------------------

  /** `s.trim().replace(/\n\s*\n/g, '\n\n')`: no whitespace at either end and no
      blank line left between two lines. */
  function Tidy(s: string): (r: string)
    ensures TrimmedEnds(r) && BlankLinesCollapsed(r)
    ensures r == [] <==> AllSpace(s)
  {
    CollapseBlankLinesNormal(Trim(s));
    CollapseKeepsEnds(Trim(s));
    CollapseBlankLines(Trim(s))
  }

  /** The replacement only rewrites runs of whitespace, so a text with visible
      ends keeps them. */
  lemma {:induction false} CollapseKeepsEnds(t: string)
    requires TrimmedEnds(t)
    ensures TrimmedEnds(CollapseBlankLines(t))
  {
    if t != [] {
      var x := t[..|t| - 1];
      var y := [t[|t| - 1]];
      assert x + y == t;
      CollapseNewlineFreeSuffix(x, y);
    }
  }

  /** A template literal that opens with a line break and closes with a line
      break and indentation, whose text starts with a newline-free `head` and
      ends with a newline-free `tail`, tidies to `head`, the collapsed middle and
      `tail`: the head and tail survive verbatim. */
  lemma {:induction false} TidyFramed(head: string, middle: string, tail: string)
    requires head != [] && '\n' !in head && !IsSpace(head[0])
    requires tail != [] && '\n' !in tail && !IsSpace(tail[0]) && !IsSpace(tail[|tail| - 1])
    ensures Tidy("\n" + head + middle + tail + "\n    ") == head + CollapseBlankLines(middle) + tail
  {
    var core := head + middle + tail;
    TrimFramedCore(head, middle, tail);
    CollapseFramed(head, middle, tail);
    assert Trim("\n" + head + middle + tail + "\n    ") == core;
  }

  lemma {:induction false} TrimFramedCore(head: string, middle: string, tail: string)
    requires head != [] && !IsSpace(head[0])
    requires tail != [] && !IsSpace(tail[|tail| - 1])
    ensures Trim("\n" + head + middle + tail + "\n    ") == head + middle + tail
  {
    var core := head + middle + tail;
    assert core[0] == head[0] && core[|core| - 1] == tail[|tail| - 1];
    assert "\n" + head + middle + tail + "\n    " == "\n" + core + "\n    ";
    TrimFramed("\n", core, "\n    ");
  }

  lemma {:induction false} CollapseFramed(head: string, middle: string, tail: string)
    requires '\n' !in head
    requires tail != [] && '\n' !in tail && !IsSpace(tail[0])
    ensures CollapseBlankLines(head + middle + tail) == head + CollapseBlankLines(middle) + tail
  {
    assert head + middle + tail == head + (middle + tail);
    CollapseNewlineFreePrefix(head, middle + tail);
    CollapseNewlineFreeSuffix(middle, tail);
  }

  /** The tidied framed template keeps its head and tail and has no whitespace
      at either end. */
  lemma {:induction false} TidyFramedEnds(head: string, middle: string, tail: string)
    requires head != [] && '\n' !in head && !IsSpace(head[0])
    requires tail != [] && '\n' !in tail && !IsSpace(tail[0]) && !IsSpace(tail[|tail| - 1])
    ensures var r := Tidy("\n" + head + middle + tail + "\n    ");
      |r| >= |head| + |tail| && r[..|head|] == head && r[|r| - |tail|..] == tail && TrimmedEnds(r)
  {
    TidyFramed(head, middle, tail);
    FramedEnds(head, CollapseBlankLines(middle), tail);
  }

  lemma {:induction false} FramedEnds(head: string, middle: string, tail: string)
    requires head != [] && !IsSpace(head[0])
    requires tail != [] && !IsSpace(tail[|tail| - 1])
    ensures var r := head + middle + tail;
      |r| >= |head| + |tail| && r[..|head|] == head && r[|r| - |tail|..] == tail && TrimmedEnds(r)
  {
    var r := head + middle + tail;
    assert r[..|head|] == head;
    assert r[|r| - |tail|..] == tail;
    assert r[0] == head[0] && r[|r| - 1] == tail[|tail| - 1];
  }

  /** Tidy applied to a framed template literal "\n" + head + middle + tail +
      "\n    ": the head and the tail come through as they are, only the middle
      has its blank-line runs collapsed. */
  function TidyFrame(head: string, middle: string, tail: string): (r: string)
    requires head != [] && '\n' !in head && !IsSpace(head[0])
    requires tail != [] && '\n' !in tail && !IsSpace(tail[0]) && !IsSpace(tail[|tail| - 1])
    ensures r == head + CollapseBlankLines(middle) + tail
    ensures |r| >= |head| + |tail| && r[..|head|] == head && r[|r| - |tail|..] == tail
    ensures TrimmedEnds(r) && BlankLinesCollapsed(r)
  {
    TidyFramed(head, middle, tail);
    TidyFramedEnds(head, middle, tail);
    Tidy("\n" + head + middle + tail + "\n    ")
  }

  /** A framed template whose text is already a tidy sequence of lines comes
      out of TidyFrame as that text. */
  lemma {:induction false} TidyFrameOfLines(head: string, middle: string, tail: string, lines: seq<string>)
    requires head != [] && '\n' !in head && !IsSpace(head[0])
    requires tail != [] && '\n' !in tail && !IsSpace(tail[0]) && !IsSpace(tail[|tail| - 1])
    requires |lines| > 0 && WellSpacedLines(lines)
    requires Join(lines, "\n") == head + middle + tail
    ensures TidyFrame(head, middle, tail) == Join(lines, "\n")
  {
    WellSpacedJoinCollapsed(lines);
    CollapseBlankLinesFixes(head + middle + tail);
    CollapseFramed(head, middle, tail);
  }

  // ---------------------------------------------------------------------------
  // Decimal numbers
  // ---------------------------------------------------------------------------

  predicate IsDigit(c: char) {
    '0' <= c <= '9'
  }

  function DigitChar(d: nat): (c: char)
    requires d < 10
    ensures IsDigit(c) && c as int - '0' as int == d
  {
    ('0' as int + d) as char
  }

  /** The decimal rendering of `n` in a template literal: digits only, and no
      leading zero unless `n` is zero. */
  function DecimalString(n: nat): (r: string)
    ensures |r| > 0 && forall i :: 0 <= i < |r| ==> IsDigit(r[i])
    ensures r[0] == '0' ==> n == 0
    decreases n
  {
    if n < 10 then [DigitChar(n)] else DecimalString(n / 10) + [DigitChar(n % 10)]
  }

  function DigitValue(c: char): nat
    requires IsDigit(c)
  {
    c as int - '0' as int
  }

  /** The number a string of decimal digits denotes. */
  function DecimalValue(s: string): nat
    requires forall i :: 0 <= i < |s| ==> IsDigit(s[i])
    decreases |s|
  {
    if s == [] then 0 else DecimalValue(s[..|s| - 1]) * 10 + DigitValue(s[|s| - 1])
  }

  /** Reading the rendering back gives the number: different numbers render
      differently. */
  lemma {:induction false} DecimalRoundTrip(n: nat)
    ensures DecimalValue(DecimalString(n)) == n
    decreases n
  {
    if n >= 10 {
      DecimalRoundTrip(n / 10);
      var s := DecimalString(n);
      assert s[..|s| - 1] == DecimalString(n / 10);
    }
  }
}
