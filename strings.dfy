/**
 * String helpers shared by every model in this project. Each one reproduces
 * one library call of the source programs (Java `String` and Python `str`
 * methods) on `seq<char>`, with a contract that says what the call means.
 */
module StringUtil {

  /** `s.startsWith(p)` (Java) and `s.startswith(p)` (Python). */
  predicate StartsWith(s: string, p: string) {
    p <= s
  }

  /** `s.endsWith(p)` (Java) and `s.endswith(p)` (Python). */
  predicate EndsWith(s: string, p: string) {
    |p| <= |s| && s[|s| - |p|..] == p
  }

  /** `t` occurs in `s` starting at index `i`. */
  predicate ContainsAt(s: string, t: string, i: int) {
    0 <= i && i + |t| <= |s| && s[i..i + |t|] == t
  }

  lemma ContainsAtShift(s: string, t: string, j: int)
    requires |s| > 0 && j >= 0
    ensures ContainsAt(s, t, j + 1) <==> ContainsAt(s[1..], t, j)
  {
    if j + 1 + |t| <= |s| {
      assert s[1..][j..j + |t|] == s[j + 1..j + 1 + |t|];
    }
  }

  /**
   * `s.indexOf(t)` (Java) and `s.find(t)` (Python): the first index at which
   * `t` occurs in `s`, or -1.
   */
  function IndexOf(s: string, t: string): (r: int)
    ensures -1 <= r <= |s|
    ensures r >= 0 ==> ContainsAt(s, t, r)
    ensures r >= 0 ==> forall j :: 0 <= j < r ==> !ContainsAt(s, t, j)
    ensures r == -1 ==> forall j :: !ContainsAt(s, t, j)
    decreases |s|
  {
    if t <= s then
      assert s[0..|t|] == t;
      0
    else if |s| == 0 then
      assert forall j :: !ContainsAt(s, t, j);
      -1
    else
      var k := IndexOf(s[1..], t);
      assert !ContainsAt(s, t, 0);
      forall j | 0 < j ensures ContainsAt(s, t, j) <==> ContainsAt(s[1..], t, j - 1) {
        ContainsAtShift(s, t, j - 1);
      }
      if k < 0 then -1 else k + 1
  }

  /** `s.contains(t)` (Java) and `t in s` (Python). */
  predicate Contains(s: string, t: string) {
    IndexOf(s, t) >= 0
  }

  lemma ContainsAtImpliesContains(s: string, t: string, i: int)
    requires ContainsAt(s, t, i)
    ensures Contains(s, t)
  {
  }

  lemma ContainsPrefix(s: string, t: string)
    requires t <= s
    ensures Contains(s, t)
  {
    assert ContainsAt(s, t, 0);
  }

  lemma ContainsInfix(a: string, t: string, b: string)
    ensures Contains(a + t + b, t)
  {
    assert (a + t + b)[|a|..|a| + |t|] == t;
    assert ContainsAt(a + t + b, t, |a|);
  }

  /** `s.indexOf(c, from)`: the first position at or after `from` holding `c`, or -1. */
  function IndexOfCharFrom(s: string, c: char, from: nat): (r: int)
    ensures r == -1 || (from <= r < |s| && s[r] == c)
    ensures r >= 0 ==> forall j :: from <= j < r ==> s[j] != c
    ensures r == -1 ==> forall j :: from <= j < |s| ==> s[j] != c
    decreases |s| - from
  {
    if from >= |s| then -1
    else if s[from] == c then from
    else IndexOfCharFrom(s, c, from + 1)
  }

  /** `s.indexOf(c)` for one character: the first position of `c`, or -1. */
  function IndexOfChar(s: string, c: char): (r: int)
    ensures -1 <= r < |s|
    ensures r == -1 <==> c !in s
    ensures r >= 0 ==> s[r] == c && c !in s[..r]
  {
    var r := IndexOfCharFrom(s, c, 0);
    assert r >= 0 ==> forall j :: 0 <= j < r ==> s[..r][j] == s[j];
    r
  }

  /** `s.lastIndexOf(c)` for one character: the last position of `c`, or -1. */
  function LastIndexOfChar(s: string, c: char): (r: int)
    ensures -1 <= r < |s|
    ensures r == -1 <==> c !in s
    ensures r >= 0 ==> s[r] == c && c !in s[r + 1..]
    decreases |s|
  {
    if |s| == 0 then -1
    else if s[|s| - 1] == c then |s| - 1
    else
      var k := LastIndexOfChar(s[..|s| - 1], c);
      SliceDropLast(s, 0);
      if k >= 0 then
        SliceDropLast(s, k + 1);
        k
      else -1
  }

  /** A `c` with no `c` after it is the last one. */
  lemma LastIndexOfCharAt(s: string, c: char, m: int)
    requires 0 <= m < |s| && s[m] == c && c !in s[m + 1..]
    ensures LastIndexOfChar(s, c) == m
  {
  }

  /**
   * Java's `s.lastIndexOf(c, from)`: the last position `<= from` holding
   * `c`; -1 when there is none or `from` is negative.
   */
  function LastIndexOfCharFrom(s: string, c: char, from: int): (r: int)
    ensures r == -1 || (0 <= r < |s| && r <= from)
    ensures r >= 0 ==> s[r] == c
    ensures r >= 0 ==> forall j :: r < j < |s| && j <= from ==> s[j] != c
    ensures r == -1 ==> forall j :: 0 <= j < |s| && j <= from ==> s[j] != c
    decreases from + 1
  {
    if from < 0 then -1
    else if from >= |s| then LastIndexOfCharFrom(s, c, |s| - 1)
    else if s[from] == c then from
    else LastIndexOfCharFrom(s, c, from - 1)
  }

  /** `s.replace(a, b)` for single characters (Java and Python). */
  function ReplaceChar(s: string, a: char, b: char): (r: string)
    ensures |r| == |s|
    ensures forall i :: 0 <= i < |s| ==> r[i] == (if s[i] == a then b else s[i])
    ensures a != b ==> a !in r
  {
    seq(|s|, i requires 0 <= i < |s| => if s[i] == a then b else s[i])
  }

  /** Number of occurrences of `c` in `s`. */
  function CountChar(s: string, c: char): nat
    decreases |s|
  {
    if |s| == 0 then 0 else (if s[0] == c then 1 else 0) + CountChar(s[1..], c)
  }

  /** `sep.join(parts)` (Python) and `String.join(sep, parts)` (Java). */
  function Join(parts: seq<string>, sep: string): string
    decreases |parts|
  {
    if |parts| == 0 then ""
    else if |parts| == 1 then parts[0]
    else parts[0] + sep + Join(parts[1..], sep)
  }

  /**
   * Python's `s.split(c)` for a one-character separator: the maximal pieces
   * between separators, always at least one, empty pieces kept.
   */
  function Split(s: string, c: char): (r: seq<string>)
    ensures |r| >= 1
    ensures forall i :: 0 <= i < |r| ==> c !in r[i]
    decreases |s|
  {
    var k := IndexOfChar(s, c);
    if k < 0 then [s] else [s[..k]] + Split(s[k + 1..], c)
  }

  /** The last piece of a split is what follows the last separator. */
  lemma {:induction false} SplitLastShape(s: string, c: char)
    ensures c !in LastPiece(s, c)
    ensures c !in s ==> LastPiece(s, c) == s
    ensures c in s ==> |LastPiece(s, c)| < |s|
    ensures c in s ==> s[|s| - |LastPiece(s, c)| - 1] == c
    ensures c in s ==> s[|s| - |LastPiece(s, c)|..] == LastPiece(s, c)
    decreases |s|
  {
    var k := IndexOfChar(s, c);
    if k >= 0 {
      var t := s[k + 1..];
      SplitLastShape(t, c);
      var l := LastPiece(t, c);
      LastPieceAfter(s, c, k);
      var m := |t| - |l|;
      if c in t {
        assert t[m..] == l;
        assert s[k + 1 + m..] == t[m..];
        assert k + 1 + m == |s| - |l|;
      } else {
        assert l == t && k + 1 == |s| - |l|;
      }
    }
  }

  /** The text after the last `c` in `s`, found from the end; all of `s` when it holds no `c`. */
  function AfterLast(s: string, c: char): (r: string)
    ensures c !in r
    ensures c !in s ==> r == s
    decreases |s|
  {
    if |s| == 0 then s
    else if s[|s| - 1] == c then ""
    else AfterLast(s[..|s| - 1], c) + [s[|s| - 1]]
  }

  lemma {:induction false} AfterLastSuffix(x: string, c: char, y: string)
    requires c !in y
    ensures AfterLast(x + [c] + y, c) == y
    decreases |y|
  {
    var s := x + [c] + y;
    if |y| > 0 {
      assert s[..|s| - 1] == x + [c] + y[..|y| - 1];
      AfterLastSuffix(x, c, y[..|y| - 1]);
      assert y[..|y| - 1] + [y[|y| - 1]] == y;
    } else {
      assert s[|s| - 1] == c;
    }
  }

  /** The text after the last `c` is the slice after `s.lastIndexOf(c)`. */
  lemma {:induction false} AfterLastIndex(s: string, c: char)
    ensures AfterLast(s, c) == s[LastIndexOfChar(s, c) + 1..]
    decreases |s|
  {
    if |s| > 0 && s[|s| - 1] != c {
      var init := s[..|s| - 1];
      AfterLastIndex(init, c);
      var k := LastIndexOfChar(init, c);
      assert LastIndexOfChar(s, c) == k;
      SliceDropLast(s, k + 1);
    }
  }

  /** A suffix of a non-empty sequence is that suffix of its prefix, then its last element. */
  lemma SliceDropLast<T>(s: seq<T>, k: nat)
    requires 0 < |s| && k < |s|
    ensures s[k..] == s[..|s| - 1][k..] + [s[|s| - 1]]
  {
  }

  /** Searching from the end agrees with taking the last piece of the split. */
  lemma AfterLastIsLastPiece(s: string, c: char)
    ensures AfterLast(s, c) == LastPiece(s, c)
  {
    SplitLastShape(s, c);
    if c in s {
      var l := LastPiece(s, c);
      var x := s[..|s| - |l| - 1];
      assert s == x + [c] + l;
      AfterLastSuffix(x, c, l);
    }
  }

  lemma LastPieceAfter(s: string, c: char, k: int)
    requires k == IndexOfChar(s, c) && k >= 0
    ensures LastPiece(s, c) == LastPiece(s[k + 1..], c)
  {
    var p := Split(s, c);
    var q := Split(s[k + 1..], c);
    SplitAtFirst(s, c, k);
    LastOfCons(p, s[..k], q);
    assert LastPiece(s, c) == p[|p| - 1];
    assert LastPiece(s[k + 1..], c) == q[|q| - 1];
  }

  /** A split with a separator at `k`, the first one, starts with the text before it. */
  lemma SplitAtFirst(s: string, c: char, k: int)
    requires k == IndexOfChar(s, c) && k >= 0
    ensures Split(s, c) == [s[..k]] + Split(s[k + 1..], c)
  {
  }

  lemma LastOfCons(p: seq<string>, x: string, rest: seq<string>)
    requires |rest| > 0 && p == [x] + rest
    ensures p[|p| - 1] == rest[|rest| - 1]
  {
  }

  /** The last piece `s.split(c)[-1]`. */
  function LastPiece(s: string, c: char): string
  {
    var p := Split(s, c);
    p[|p| - 1]
  }

  /** Splitting and re-joining with the same separator gives the input back. */
  lemma {:induction false} JoinSplit(s: string, c: char)
    ensures Join(Split(s, c), [c]) == s
    decreases |s|
  {
    var k := IndexOfChar(s, c);
    if k >= 0 {
      var rest := Split(s[k + 1..], c);
      JoinSplit(s[k + 1..], c);
      JoinCons(s[..k], rest, [c]);
      assert s == s[..k] + [c] + s[k + 1..];
    }
  }

  /** Joining peels off the last part: `sep.join(p) == sep.join(p[:-1]) + sep + p[-1]`. */
  lemma {:induction false} JoinSnoc(p: seq<string>, sep: string)
    requires |p| >= 2
    ensures Join(p, sep) == Join(p[..|p| - 1], sep) + sep + p[|p| - 1]
    decreases |p|
  {
    if |p| > 2 {
      JoinSnoc(p[1..], sep);
      assert p[..|p| - 1][1..] == p[1..][..|p| - 2];
    }
  }

  /** Appending an empty part appends one separator. */
  lemma JoinAppendEmpty(p: seq<string>, sep: string)
    requires |p| >= 1
    ensures Join(p + [""], sep) == Join(p, sep) + sep
  {
    JoinSnoc(p + [""], sep);
    assert (p + [""])[..|p|] == p;
  }

  /** Extending the last part extends the joined text by the same amount. */
  lemma JoinExtendLast(p: seq<string>, sep: string, t: string)
    requires |p| >= 1
    ensures Join(p[..|p| - 1] + [p[|p| - 1] + t], sep) == Join(p, sep) + t
  {
    var q := p[..|p| - 1] + [p[|p| - 1] + t];
    if |p| == 1 {
      assert q == [p[0] + t];
    } else {
      JoinSnoc(p, sep);
      JoinSnoc(q, sep);
      assert q[..|q| - 1] == p[..|p| - 1];
    }
  }

  /** Re-joining all but the last piece gives the text before the last separator. */
  lemma JoinSplitInit(s: string, c: char)
    requires c in s
    ensures var p := Split(s, c);
      |p| >= 2 && LastPiece(s, c) == s[LastIndexOfChar(s, c) + 1..]
      && Join(p[..|p| - 1], [c]) == s[..LastIndexOfChar(s, c)]
  {
    var p := Split(s, c);
    SplitAtFirst(s, c, IndexOfChar(s, c));
    var l := p[|p| - 1];
    var init := Join(p[..|p| - 1], [c]);
    JoinSplit(s, c);
    JoinSnoc(p, [c]);
    SplitLastShape(s, c);
    LastSeparatorAt(s, init, c, l);
  }

  /** In `init + [c] + l` with no `c` in `l`, the separator shown is the last one. */
  lemma LastSeparatorAt(s: string, init: string, c: char, l: string)
    requires s == init + [c] + l && c !in l
    ensures LastIndexOfChar(s, c) == |init|
    ensures s[|init| + 1..] == l && s[..|init|] == init
  {
    assert s[|init| + 1..] == l;
    LastIndexOfCharAt(s, c, |init|);
  }

  lemma JoinCons(a: string, rest: seq<string>, sep: string)
    requires |rest| >= 1
    ensures Join([a] + rest, sep) == a + sep + Join(rest, sep)
  {
    assert ([a] + rest)[1..] == rest;
  }

  /** A split yields one piece more than there are separators. */
  lemma {:induction false} SplitCount(s: string, c: char)
    ensures |Split(s, c)| == CountChar(s, c) + 1
    decreases |s|
  {
    var k := IndexOfChar(s, c);
    if k < 0 {
      CountAbsent(s, c);
    } else {
      SplitCount(s[k + 1..], c);
      CountConcat(s[..k], s[k..], c);
      assert s[..k] + s[k..] == s;
      CountAbsent(s[..k], c);
      assert s[k..] == [c] + s[k + 1..];
      assert s[k..][1..] == s[k + 1..];
    }
  }

  lemma {:induction false} CountAbsent(s: string, c: char)
    requires c !in s
    ensures CountChar(s, c) == 0
    decreases |s|
  {
    if |s| > 0 {
      assert s[0] != c;
      assert forall x :: x in s[1..] ==> x in s;
      CountAbsent(s[1..], c);
    }
  }

  lemma {:induction false} CountConcat(a: string, b: string, c: char)
    ensures CountChar(a + b, c) == CountChar(a, c) + CountChar(b, c)
    decreases |a|
  {
    if |a| > 0 {
      assert (a + b)[1..] == a[1..] + b;
      CountConcat(a[1..], b, c);
    } else {
      assert a + b == b;
    }
  }

  // ---------------------------------------------------------------------
  // Trimming

  /** Removes the trailing characters that satisfy `ws`. */
  function TrimRight(s: string, ws: char -> bool): (r: string)
    ensures |r| <= |s| && r == s[..|r|]
    ensures r == [] || !ws(r[|r| - 1])
    ensures forall i :: |r| <= i < |s| ==> ws(s[i])
    decreases |s|
  {
    if |s| > 0 && ws(s[|s| - 1]) then
      var r := TrimRight(s[..|s| - 1], ws);
      assert forall i :: 0 <= i < |r| ==> s[..|s| - 1][i] == s[i];
      r
    else s
  }

  /** Removes the characters that satisfy `ws` from both ends: the leading ones one by one, then the trailing ones. */
  function Trim(s: string, ws: char -> bool): (r: string)
    ensures |r| <= |s|
    ensures r == [] || (!ws(r[0]) && !ws(r[|r| - 1]))
    ensures (forall i :: 0 <= i < |s| ==> ws(s[i])) <==> r == []
    decreases |s|
  {
    if |s| > 0 && ws(s[0]) then
      var r := Trim(s[1..], ws);
      assert forall i :: 1 <= i < |s| ==> s[1..][i - 1] == s[i];
      r
    else
      TrimRight(s, ws)
  }

  /** Trimming an already trimmed string changes nothing. */
  lemma TrimIdempotent(s: string, ws: char -> bool)
    ensures Trim(Trim(s, ws), ws) == Trim(s, ws)
  {
    TrimUnchanged(Trim(s, ws), ws);
  }

  lemma TrimUnchanged(s: string, ws: char -> bool)
    requires s == [] || (!ws(s[0]) && !ws(s[|s| - 1]))
    ensures Trim(s, ws) == s
  {
  }

  /** One leading `ws` character is removed by trimming. */
  lemma TrimDropsLeading(c: char, s: string, ws: char -> bool)
    requires ws(c)
    ensures Trim([c] + s, ws) == Trim(s, ws)
  {
    assert ([c] + s)[1..] == s;
  }

  /** Java's `String.trim()` treats every character up to U+0020 as space. */
  predicate JavaSpace(c: char) {
    c <= ' '
  }

  function JavaTrim(s: string): (r: string)
    ensures |r| <= |s|
    ensures r == [] || (r[0] > ' ' && r[|r| - 1] > ' ')
  {
    Trim(s, JavaSpace)
  }

  /** Python's `str.isspace()` for one character (the Unicode white-space set). */
  predicate PySpace(c: char) {
    ('\t' <= c <= '\r') || ('\U{1C}' <= c <= ' ') || c == '\U{85}' || c == '\U{A0}'
    || c == '\U{1680}' || ('\U{2000}' <= c <= '\U{200A}') || c == '\U{2028}' || c == '\U{2029}'
    || c == '\U{202F}' || c == '\U{205F}' || c == '\U{3000}'
  }

  /** Python's `s.strip()` without arguments. */
  function PyStrip(s: string): (r: string)
    ensures |r| <= |s|
    ensures r == [] || (!PySpace(r[0]) && !PySpace(r[|r| - 1]))
    ensures r == [] <==> forall i :: 0 <= i < |s| ==> PySpace(s[i])
  {
    Trim(s, PySpace)
  }

  // ---------------------------------------------------------------------
  // Case and digits

  predicate IsAsciiUpper(c: char) { 'A' <= c <= 'Z' }

  predicate IsAsciiLower(c: char) { 'a' <= c <= 'z' }

  predicate IsDigit(c: char) { '0' <= c <= '9' }

  /** Python's `s.lower()` restricted to the ASCII letters. */
  function AsciiLower(s: string): (r: string)
    ensures |r| == |s|
    ensures forall i :: 0 <= i < |s| ==> !IsAsciiUpper(r[i])
    ensures forall i :: 0 <= i < |s| && !IsAsciiUpper(s[i]) ==> r[i] == s[i]
  {
    seq(|s|, i requires 0 <= i < |s| =>
      if IsAsciiUpper(s[i]) then (s[i] as int + 32) as char else s[i])
  }

  /** Decimal digits of a natural number, most significant first. */
  function NatToString(n: nat): (r: string)
    ensures |r| >= 1
    ensures forall i :: 0 <= i < |r| ==> IsDigit(r[i])
    ensures r[0] == '0' ==> n == 0
    decreases n
  {
    if n < 10 then [('0' as int + n) as char]
    else NatToString(n / 10) + [('0' as int + n % 10) as char]
  }

  /** `String.valueOf(n)` (Java) and `str(n)` (Python) for an integer. */
  function IntToString(n: int): (r: string)
    ensures |r| >= 1
    ensures (n < 0) <==> r[0] == '-'
  {
    if n < 0 then "-" + NatToString(-n) else NatToString(n)
  }

  /** Value of a string of decimal digits. */
  function DigitsValue(s: string): nat
    requires forall i :: 0 <= i < |s| ==> IsDigit(s[i])
    decreases |s|
  {
    if |s| == 0 then 0
    else
      var d := s[|s| - 1];
      assert IsDigit(d);
      10 * DigitsValue(s[..|s| - 1]) + (d as int - '0' as int)
  }

  /** Rendering a number in decimal loses nothing. */
  lemma {:induction false} NatToStringRoundTrip(n: nat)
    ensures DigitsValue(NatToString(n)) == n
    decreases n
  {
    if n >= 10 {
      NatToStringRoundTrip(n / 10);
      var r := NatToString(n);
      assert r[..|r| - 1] == NatToString(n / 10);
    }
  }

  /** Distinct numbers have distinct decimal renderings. */
  lemma NatToStringInjective(m: nat, n: nat)
    requires NatToString(m) == NatToString(n)
    ensures m == n
  {
    NatToStringRoundTrip(m);
    NatToStringRoundTrip(n);
  }

  // ---------------------------------------------------------------------
  // Ordering (Python compares strings by code point, lexicographically)

  predicate StrLt(a: string, b: string)
    decreases |a|
  {
    if |a| == 0 then |b| > 0
    else if |b| == 0 then false
    else if a[0] != b[0] then a[0] < b[0]
    else StrLt(a[1..], b[1..])
  }

  lemma {:induction false} StrLtIrreflexive(a: string)
    ensures !StrLt(a, a)
    decreases |a|
  {
    if |a| > 0 { StrLtIrreflexive(a[1..]); }
  }

  lemma {:induction false} StrLtTransitive(a: string, b: string, c: string)
    requires StrLt(a, b) && StrLt(b, c)
    ensures StrLt(a, c)
    decreases |a|
  {
    if |a| > 0 && |b| > 0 && |c| > 0 && a[0] == b[0] && b[0] == c[0] {
      StrLtTransitive(a[1..], b[1..], c[1..]);
    }
  }

  lemma {:induction false} StrLtTotal(a: string, b: string)
    ensures a == b || StrLt(a, b) || StrLt(b, a)
    decreases |a|
  {
    if |a| > 0 && |b| > 0 && a[0] == b[0] {
      StrLtTotal(a[1..], b[1..]);
      if a[1..] == b[1..] {
        assert a == [a[0]] + a[1..] && b == [b[0]] + b[1..];
      }
    }
  }

  lemma StrLtAsymmetric(a: string, b: string)
    requires StrLt(a, b)
    ensures !StrLt(b, a)
  {
    if StrLt(b, a) {
      StrLtTransitive(a, b, a);
      StrLtIrreflexive(a);
    }
  }

  /** Strictly increasing, hence also free of duplicates. */
  predicate StrictlySorted(s: seq<string>) {
    forall i, j :: 0 <= i < j < |s| ==> StrLt(s[i], s[j])
  }

  /** Inserts `x` into a strictly sorted list unless it is already there. */
  function InsertSorted(x: string, s: seq<string>): (r: seq<string>)
    requires StrictlySorted(s)
    ensures StrictlySorted(r)
    ensures forall y :: y in r <==> y == x || y in s
    decreases |s|
  {
    if |s| == 0 then [x]
    else if x == s[0] then s
    else if StrLt(x, s[0]) then
      assert forall j :: 0 < j < |s| ==> StrLt(x, s[j]) by {
        forall j | 0 < j < |s| ensures StrLt(x, s[j]) { StrLtTransitive(x, s[0], s[j]); }
      }
      [x] + s
    else
      StrLtTotal(x, s[0]);
      var t := InsertSorted(x, s[1..]);
      assert forall y :: y in t ==> StrLt(s[0], y);
      s[..1] + t
  }

  /**
   * `sorted(set(xs))`: the distinct elements of `xs` in increasing order.
   */
  function SortedDistinct(xs: seq<string>): (r: seq<string>)
    ensures StrictlySorted(r)
    ensures forall y :: y in r <==> y in xs
    decreases |xs|
  {
    if |xs| == 0 then []
    else InsertSorted(xs[|xs| - 1], SortedDistinct(xs[..|xs| - 1]))
  }

  /** The head of a strictly sorted list is below every other element. */
  lemma SortedHeadMin(a: seq<string>, y: string)
    requires StrictlySorted(a) && |a| > 0 && y in a
    ensures y == a[0] || StrLt(a[0], y)
  {
  }

  lemma NoMemberEmpty(b: seq<string>)
    ensures (forall y :: y !in b) ==> b == []
  {
    if |b| > 0 {
      assert b[0] in b;
    }
  }

  /** Two strictly sorted lists with the same elements are equal. */
  lemma {:induction false} StrictlySortedUnique(a: seq<string>, b: seq<string>)
    requires StrictlySorted(a) && StrictlySorted(b)
    requires forall y :: y in a <==> y in b
    ensures a == b
    decreases |a|
  {
    NoMemberEmpty(a);
    NoMemberEmpty(b);
    if |a| > 0 {
      assert |b| > 0 by { assert a[0] in a; }
      SortedHeadMin(b, a[0]);
      SortedHeadMin(a, b[0]);
      if a[0] != b[0] {
        StrLtAsymmetric(b[0], a[0]);
      }
      forall y ensures y in a[1..] <==> y in b[1..] {
        if y in a[1..] {
          var i :| 0 <= i < |a[1..]| && a[1..][i] == y;
          assert a[i + 1] == y && StrLt(a[0], y);
          StrLtIrreflexive(y);
          assert y in a;
          var j :| 0 <= j < |b| && b[j] == y;
          assert b[1..][j - 1] == y;
        }
        if y in b[1..] {
          var i :| 0 <= i < |b[1..]| && b[1..][i] == y;
          assert b[i + 1] == y && StrLt(b[0], y);
          StrLtIrreflexive(y);
          assert y in b;
          var j :| 0 <= j < |a| && a[j] == y;
          assert a[1..][j - 1] == y;
        }
      }
      StrictlySortedUnique(a[1..], b[1..]);
      assert a[0] == b[0] && a[1..] == b[1..];
      assert a == [a[0]] + a[1..] && b == [b[0]] + b[1..];
    }
  }

  /** The sorted listing depends only on which strings occur, not on order or repetition. */
  lemma SortedDistinctCanonical(xs: seq<string>, ys: seq<string>)
    requires forall y :: y in xs <==> y in ys
    ensures SortedDistinct(xs) == SortedDistinct(ys)
  {
    StrictlySortedUnique(SortedDistinct(xs), SortedDistinct(ys));
  }
}
