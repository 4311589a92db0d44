/** JavaScript strings and the built-in string operations the two AI endpoints use:
    `slice(0, n)`, `indexOf`, `lastIndexOf`, `trim`, `split` and `join`, plus the
    first-`{`-to-last-`}` block both endpoints fall back to. */
module JsStrings {
  import opened Wrappers

  /** One UTF-16 code unit. A JavaScript string is a sequence of them, and `length`,
      `slice`, `indexOf` and `split` all count and cut code units. */
  newtype CodeUnit = x: int | 0 <= x < 0x1_0000

  type JsString = seq<CodeUnit>

  /** The code unit of a character of the Basic Multilingual Plane. It is only
      applied to the ASCII literals of the source. */
  function Unit(c: char): CodeUnit {
    if c as int < 0x1_0000 then c as int as CodeUnit else 0xFFFD
  }

  /** The code units of a string literal of the source. */
  function Lit(s: string): JsString {
    seq(|s|, i requires 0 <= i < |s| => Unit(s[i]))
  }

  const LineFeed: CodeUnit := 0x0A
  const Comma: CodeUnit := 0x2C
  const OpenBrace: CodeUnit := 0x7B
  const CloseBrace: CodeUnit := 0x7D

  /** The code units `String.prototype.trim` removes: the WhiteSpace and
      LineTerminator productions of ECMAScript (section 12.2 and 12.3 of ECMA-262). */
  predicate IsWhiteSpace(c: CodeUnit) {
    c == 0x09 || c == 0x0A || c == 0x0B || c == 0x0C || c == 0x0D
    || c == 0x20 || c == 0xA0 || c == 0x1680 || (0x2000 <= c <= 0x200A)
    || c == 0x2028 || c == 0x2029 || c == 0x202F || c == 0x205F
    || c == 0x3000 || c == 0xFEFF
  }

  function Min(a: nat, b: nat): nat { if a <= b then a else b }

  /** `s.slice(0, n)` on a string or an array: the first `n` elements, or all of
      them when there are fewer. */
  function Take<T>(s: seq<T>, n: nat): (r: seq<T>)
    ensures |r| == Min(|s|, n)
    ensures r == s[..|r|]
    ensures |s| <= n ==> r == s
  {
    if |s| <= n then s else s[..n]
  }

  /** `s.indexOf(c)`: the position of the first `c`, or -1 when there is none. */
  function IndexOf(s: JsString, c: CodeUnit): (r: int)
    ensures -1 <= r < |s|
    ensures r == -1 <==> c !in s
    ensures 0 <= r ==> s[r] == c && c !in s[..r]
  {
    if s == [] then -1
    else if s[0] == c then 0
    else
      var k := IndexOf(s[1..], c);
      if k == -1 then -1
      else
        assert s[..k + 1] == [s[0]] + s[1..][..k];
        k + 1
  }

  /** `s.lastIndexOf(c)`: the position of the last `c`, or -1 when there is none. */
  function LastIndexOf(s: JsString, c: CodeUnit): (r: int)
    ensures -1 <= r < |s|
    ensures r == -1 <==> c !in s
    ensures 0 <= r ==> s[r] == c && c !in s[r + 1..]
  {
    if s == [] then -1
    else if s[|s| - 1] == c then |s| - 1
    else
      var k := LastIndexOf(s[..|s| - 1], c);
      assert s == s[..|s| - 1] + [s[|s| - 1]];
      assert k != -1 ==> s[k + 1..] == s[..|s| - 1][k + 1..] + [s[|s| - 1]];
      k
  }

  /** `t` occurs in `s` as one contiguous piece starting at `i`. */
  ghost predicate IsInfixAt(t: JsString, s: JsString, i: int) {
    0 <= i <= |s| - |t| && s[i..i + |t|] == t
  }

  /** `t` occurs in `s` as one contiguous piece. */
  ghost predicate IsInfix(t: JsString, s: JsString) {
    exists i :: IsInfixAt(t, s, i)
  }

  lemma InfixTransitive(a: JsString, b: JsString, c: JsString)
    requires IsInfix(a, b) && IsInfix(b, c)
    ensures IsInfix(a, c)
  {
    var i :| IsInfixAt(a, b, i);
    var j :| IsInfixAt(b, c, j);
    assert forall k :: 0 <= k < |a| ==> c[j + i + k] == b[i + k] == a[k];
    assert IsInfixAt(a, c, j + i);
  }

  /** Leading white space removed: the longest suffix that does not start with white space. */
  function TrimStart(s: JsString): (r: JsString)
    ensures |r| <= |s| && r == s[|s| - |r|..]
    ensures forall i :: 0 <= i < |s| - |r| ==> IsWhiteSpace(s[i])
    ensures r != [] ==> !IsWhiteSpace(r[0])
  {
    if s != [] && IsWhiteSpace(s[0]) then
      var r := TrimStart(s[1..]);
      assert s[1..][|s| - 1 - |r|..] == s[|s| - |r|..];
      assert forall i :: 1 <= i < |s| - |r| ==> s[i] == s[1..][i - 1];
      r
    else s
  }

  /** Trailing white space removed: the longest prefix that does not end with white space. */
  function TrimEnd(s: JsString): (r: JsString)
    ensures |r| <= |s| && r == s[..|r|]
    ensures forall i :: |r| <= i < |s| ==> IsWhiteSpace(s[i])
    ensures r != [] ==> !IsWhiteSpace(r[|r| - 1])
  {
    if s != [] && IsWhiteSpace(s[|s| - 1]) then
      var r := TrimEnd(s[..|s| - 1]);
      assert s[..|s| - 1][..|r|] == s[..|r|];
      r
    else s
  }

  /** `r` is `s` with white space only removed before and after it: it sits at `i`,
      and every code unit of `s` outside it is white space. */
  ghost predicate IsPaddedAt(r: JsString, s: JsString, i: int) {
    IsInfixAt(r, s, i)
    && (forall k :: 0 <= k < i ==> IsWhiteSpace(s[k]))
    && (forall k :: i + |r| <= k < |s| ==> IsWhiteSpace(s[k]))
  }

  /** `s.trim()`: `s` without its leading and trailing white space, so a piece of `s`
      that neither starts nor ends with white space, and that is empty exactly when
      `s` is white space throughout. */
  function Trim(s: JsString): (r: JsString)
    ensures IsInfix(r, s)  // a corollary of the next clause, kept for callers
    ensures exists i :: IsPaddedAt(r, s, i)
    ensures r != [] ==> !IsWhiteSpace(r[0]) && !IsWhiteSpace(r[|r| - 1])
    ensures r == [] <==> forall i :: 0 <= i < |s| ==> IsWhiteSpace(s[i])
  {
    var front := TrimStart(s);
    var r := TrimEnd(front);
    assert s[|s| - |front|..][..|r|] == s[|s| - |front|..|s| - |front| + |r|];
    assert IsInfixAt(r, s, |s| - |front|);
    assert IsPaddedAt(r, s, |s| - |front|);
    r
  }

  /** Trimming twice trims no more than trimming once. */
  lemma TrimIdempotent(s: JsString)
    ensures Trim(Trim(s)) == Trim(s)
  {
    var t := Trim(s);
    if t != [] {
      assert TrimStart(t) == t;
    }
  }

  /** The number of times `c` occurs in `s`. */
  function Count(s: JsString, c: CodeUnit): nat {
    multiset(s)[c]
  }

  /** `s.split(sep)` for a one-unit separator: the pieces between separators, in order;
      there is always at least one, and none contains the separator. */
  function Split(s: JsString, sep: CodeUnit): (r: seq<JsString>)
    ensures |r| >= 1
    ensures forall k :: 0 <= k < |r| ==> sep !in r[k]
    decreases |s|
  {
    var i := IndexOf(s, sep);
    if i == -1 then [s] else [s[..i]] + Split(s[i + 1..], sep)
  }

  /** `parts.join(sep)` for a one-unit separator. */
  function Join(parts: seq<JsString>, sep: CodeUnit): JsString {
    if |parts| == 0 then []
    else if |parts| == 1 then parts[0]
    else parts[0] + [sep] + Join(parts[1..], sep)
  }

  lemma JoinCons(a: JsString, rest: seq<JsString>, sep: CodeUnit)
    requires |rest| >= 1
    ensures Join([a] + rest, sep) == a + [sep] + Join(rest, sep)
  {
    assert ([a] + rest)[0] == a;
    assert ([a] + rest)[1..] == rest;
  }

  /** What one step of `Split` does when the text holds a separator at `i`. */
  lemma SplitStep(s: JsString, sep: CodeUnit)
    requires sep in s
    ensures var i := IndexOf(s, sep);
      0 <= i < |s| && s == s[..i] + [sep] + s[i + 1..]
      && Split(s, sep) == [s[..i]] + Split(s[i + 1..], sep)
  {
    var i := IndexOf(s, sep);
    assert s[i] == sep;
    assert s == s[..i] + [s[i]] + s[i + 1..];
  }

  /** Joining the pieces of a split with the same separator gives back the text. */
  lemma {:induction false} JoinSplit(s: JsString, sep: CodeUnit)
    ensures Join(Split(s, sep), sep) == s
    decreases |s|
  {
    if sep in s {
      SplitStep(s, sep);
      var i := IndexOf(s, sep);
      var rest := s[i + 1..];
      JoinSplit(rest, sep);
      JoinCons(s[..i], Split(rest, sep), sep);
    }
  }

  /** Splitting a join of separator-free pieces gives back the pieces. */
  lemma {:induction false} SplitJoin(parts: seq<JsString>, sep: CodeUnit)
    requires |parts| >= 1
    requires forall k :: 0 <= k < |parts| ==> sep !in parts[k]
    ensures Split(Join(parts, sep), sep) == parts
  {
    if |parts| > 1 {
      var head := parts[0];
      var rest := Join(parts[1..], sep);
      SplitJoin(parts[1..], sep);
      assert parts == [head] + parts[1..];
      JoinCons(head, parts[1..], sep);
      var s := head + [sep] + rest;
      assert s[|head|] == sep;
      assert s[..|head|] == head;
      assert sep !in head;
      SplitStep(s, sep);
      assert IndexOf(s, sep) == |head|;
      assert s[|head| + 1..] == rest;
    }
  }

  /** A split has one more piece than the text has separators. */
  lemma {:induction false} SplitLength(s: JsString, sep: CodeUnit)
    ensures |Split(s, sep)| == Count(s, sep) + 1
    decreases |s|
  {
    if sep in s {
      SplitStep(s, sep);
      var i := IndexOf(s, sep);
      var rest := s[i + 1..];
      SplitLength(rest, sep);
      assert multiset(s) == multiset(s[..i]) + multiset{sep} + multiset(rest);
      assert multiset(s[..i])[sep] == 0;
    } else {
      assert multiset(s)[sep] == 0;
    }
  }

  /** A common start keeps a prefix a prefix. */
  lemma PrefixExtend(a: JsString, x: JsString, y: JsString)
    requires |x| <= |y| && x == y[..|x|]
    ensures |a + x| <= |a + y| && a + x == (a + y)[..|a + x|]
  {
    assert (a + y)[..|a + x|] == a + y[..|x|];
  }

  /** Joining the first `n` pieces gives a prefix of joining them all. */
  lemma {:induction false} JoinTakeIsPrefix(parts: seq<JsString>, sep: CodeUnit, n: nat)
    ensures var p, w := Join(Take(parts, n), sep), Join(parts, sep); |p| <= |w| && p == w[..|p|]
  {
    if n == 0 {
      assert Take(parts, n) == [];
    } else if |parts| <= 1 {
      assert Take(parts, n) == parts;
    } else {
      var head, tail := parts[0], parts[1..];
      assert parts == [head] + tail;
      JoinCons(head, tail, sep);
      if n == 1 {
        assert Take(parts, 1) == [head];
        assert (head + [sep] + Join(tail, sep))[..|head|] == head;
      } else {
        JoinTakeIsPrefix(tail, sep, n - 1);
        assert Take(parts, n) == [head] + Take(tail, n - 1);
        JoinCons(head, Take(tail, n - 1), sep);
        PrefixExtend(head + [sep], Join(Take(tail, n - 1), sep), Join(tail, sep));
      }
    }
  }

  /** `i..j` is a match of the regular expression `/\{[\s\S]*\}/` in `s`: a `{` at `i`,
      a `}` at `j` after it, anything in between. */
  ghost predicate IsBraceMatch(s: JsString, i: int, j: int) {
    0 <= i < j < |s| && s[i] == OpenBrace && s[j] == CloseBrace
  }

  /** The match JavaScript's backtracking matcher reports: the leftmost start that
      has any match, and from there, the greedy `[\s\S]*` takes the longest. */
  ghost predicate IsLeftmostLongest(s: JsString, i: int, j: int) {
    IsBraceMatch(s, i, j)
    && (forall i', j' :: IsBraceMatch(s, i', j') ==> i <= i')
    && (forall j' :: IsBraceMatch(s, i, j') ==> j' <= j)
  }

  /** Every match of the brace pattern lies between the first `{` and the last `}`. */
  lemma BraceMatchBounds(s: JsString)
    ensures forall i, j :: IsBraceMatch(s, i, j) ==>
      0 <= IndexOf(s, OpenBrace) <= i && j <= LastIndexOf(s, CloseBrace)
  {
    forall i, j | IsBraceMatch(s, i, j)
      ensures 0 <= IndexOf(s, OpenBrace) <= i && j <= LastIndexOf(s, CloseBrace)
    {
      var start := IndexOf(s, OpenBrace);
      var end := LastIndexOf(s, CloseBrace);
      assert s[i] in s && s[j] in s;
    }
  }

  /** The text from the first `{` to the last `}`, both included, provided the last
      `}` comes after the first `{`; computed with `indexOf` and `lastIndexOf` as the
      review path does, and equal to what `text.match(/\{[\s\S]*\}/)` reports on the
      annotate path. */
  function BraceBlock(s: JsString): (r: Option<JsString>)
    ensures r.None? <==> forall i, j :: !IsBraceMatch(s, i, j)
    ensures r.Some? ==> exists i, j :: IsLeftmostLongest(s, i, j) && r.value == s[i..j + 1]
    ensures r.Some? ==> |r.value| >= 2 && r.value[0] == OpenBrace && r.value[|r.value| - 1] == CloseBrace
    ensures r.Some? ==> IsInfix(r.value, s)
  {
    var start := IndexOf(s, OpenBrace);
    var end := LastIndexOf(s, CloseBrace);
    BraceMatchBounds(s);
    if start != -1 && end != -1 && end > start then
      assert IsBraceMatch(s, start, end);
      assert IsLeftmostLongest(s, start, end);
      assert IsInfixAt(s[start..end + 1], s, start);
      Some(s[start..end + 1])
    else
      None
  }
}
