/**
 * The rules of the Java source visitor `UsageCollector`: domain-pattern
 * matching (also through generic type arguments), the bracket-aware split
 * of generic arguments, `file:` URIs, simple names, the caller and callee
 * kind tables, the fully qualified names of the scope being visited, and
 * the usage records it appends, forward and inverse. JavaParser's symbol
 * resolution is a parameter: each visit receives the strings that
 * resolution produced.
 */
module UsageCollector {
  import opened StringUtil
  import opened Common

  // ---------------------------------------------------------------------
  // Domain patterns

  /** The pattern used when the caller gives none. */
  const DefaultPattern: string := "com.axelor.*"

  /** The collector's patterns: the given ones, or the default when there are none. */
  function DomainPatterns(given: Option<seq<string>>): (r: seq<string>)
    ensures |r| >= 1
    ensures given.Some? && |given.value| > 0 ==> r == given.value
    ensures given.None? || |given.value| == 0 ==> r == [DefaultPattern]
  {
    if given.Some? && |given.value| > 0 then given.value else [DefaultPattern]
  }

  /** One pattern: `p.*` is a prefix test on `p`, anything else a substring test. */
  predicate PatternMatches(fqn: string, pattern: string) {
    if EndsWith(pattern, ".*") then StartsWith(fqn, pattern[..|pattern| - 2])
    else Contains(fqn, pattern)
  }

  /** The loop over the patterns from index `k` on, stopping at the first that matches. */
  function AnyPatternFrom(fqn: string, patterns: seq<string>, k: nat): (r: bool)
    ensures r <==> exists i :: k <= i < |patterns| && PatternMatches(fqn, patterns[i])
    decreases |patterns| - k
  {
    if k >= |patterns| then false
    else if PatternMatches(fqn, patterns[k]) then true
    else AnyPatternFrom(fqn, patterns, k + 1)
  }

  /** `matchesDomainPattern`: a missing name never matches. */
  function MatchesDomain(fqn: Option<string>, patterns: seq<string>): (r: bool)
    ensures r <==> fqn.Some? && exists i :: 0 <= i < |patterns| && PatternMatches(fqn.value, patterns[i])
  {
    fqn.Some? && AnyPatternFrom(fqn.value, patterns, 0)
  }

  /**
   * The default pattern is a plain prefix test on "com.axelor": it needs no
   * package boundary, so "com.axelorx.Y" matches too.
   */
  lemma DefaultPatternIsPrefix(fqn: string)
    ensures MatchesDomain(Some(fqn), [DefaultPattern]) <==> StartsWith(fqn, "com.axelor")
    ensures MatchesDomain(Some("com.axelorx.Y"), [DefaultPattern])
  {
    assert EndsWith(DefaultPattern, ".*");
    assert DefaultPattern[..|DefaultPattern| - 2] == "com.axelor";
    assert PatternMatches("com.axelorx.Y", DefaultPattern);
  }

  /** A pattern that matches the empty name matches every name. */
  lemma EmptyNameMatchesAll(patterns: seq<string>, fqn: string)
    requires MatchesDomain(Some(""), patterns)
    ensures MatchesDomain(Some(fqn), patterns)
  {
    var i :| 0 <= i < |patterns| && PatternMatches("", patterns[i]);
    var p := patterns[i];
    if !EndsWith(p, ".*") {
      assert ContainsAt("", p, IndexOf("", p));
      assert p == [];
      assert ContainsAt(fqn, p, 0);
    }
    assert PatternMatches(fqn, p);
  }

  // ---------------------------------------------------------------------
  // Generic arguments

  function DepthStep(c: char): int {
    if c == '<' then 1 else if c == '>' then -1 else 0
  }

  /** The bracket depth after reading `s`: opening minus closing angle brackets. */
  function Depth(s: string): int
    decreases |s|
  {
    if |s| == 0 then 0 else Depth(s[..|s| - 1]) + DepthStep(s[|s| - 1])
  }

  /**
   * `s` cut at every comma read at bracket depth 0, the commas dropped; the
   * last segment is the one still being read.
   */
  function TopSegments(s: string): (r: seq<string>)
    ensures |r| >= 1
    ensures forall i :: 0 <= i < |r| ==> |r[i]| <= |s|
    decreases |s|
  {
    if |s| == 0 then [""]
    else
      var init := s[..|s| - 1];
      var c := s[|s| - 1];
      var segs := TopSegments(init);
      if c == ',' && Depth(init) == 0 then segs + [""]
      else segs[..|segs| - 1] + [segs[|segs| - 1] + [c]]
  }

  /** Joining the segments with commas gives the text back. */
  lemma {:induction false} JoinTopSegments(s: string)
    ensures Join(TopSegments(s), ",") == s
    decreases |s|
  {
    if |s| > 0 {
      var init := s[..|s| - 1];
      var c := s[|s| - 1];
      var segs := TopSegments(init);
      JoinTopSegments(init);
      assert s == init + [c];
      if c == ',' && Depth(init) == 0 {
        JoinAppendEmpty(segs, ",");
      } else {
        JoinExtendLast(segs, ",", [c]);
      }
    }
  }

  /** Without commas there is one segment, the whole text. */
  lemma {:induction false} NoCommaOneSegment(s: string)
    requires ',' !in s
    ensures TopSegments(s) == [s]
    decreases |s|
  {
    if |s| > 0 {
      var init := s[..|s| - 1];
      assert ',' !in init by {
        forall i | 0 <= i < |init| ensures init[i] != ',' {
          assert init[i] == s[i];
        }
      }
      NoCommaOneSegment(init);
      assert s == init + [s[|s| - 1]];
    }
  }

  /** As written: every segment that is not empty, trimmed. */
  function KeepNonEmpty(segs: seq<string>): (r: seq<string>)
    ensures |r| <= |segs|
    ensures forall i :: 0 <= i < |r| ==> JavaTrim(r[i]) == r[i]
    decreases |segs|
  {
    if |segs| == 0 then []
    else
      var last := segs[|segs| - 1];
      TrimIdempotent(last, JavaSpace);
      KeepNonEmpty(segs[..|segs| - 1]) + (if |last| > 0 then [JavaTrim(last)] else [])
  }

  /** Corrected: every segment that is not blank, trimmed. */
  function KeepNonBlank(segs: seq<string>): (r: seq<string>)
    ensures |r| <= |segs|
    ensures forall i :: 0 <= i < |r| ==> r[i] != "" && JavaTrim(r[i]) == r[i]
    decreases |segs|
  {
    if |segs| == 0 then []
    else
      var last := segs[|segs| - 1];
      TrimIdempotent(last, JavaSpace);
      KeepNonBlank(segs[..|segs| - 1]) + (if JavaTrim(last) != "" then [JavaTrim(last)] else [])
  }

  /** `xs` without its empty strings, in order. */
  function DropEmpty(xs: seq<string>): (r: seq<string>)
    ensures forall x :: x in r <==> x in xs && x != ""
    decreases |xs|
  {
    if |xs| == 0 then []
    else DropEmpty(xs[..|xs| - 1]) + (if xs[|xs| - 1] != "" then [xs[|xs| - 1]] else [])
  }

  /** The corrected pieces are the as-written pieces with the empty ones removed. */
  lemma {:induction false} KeepNonBlankDropsEmpty(segs: seq<string>)
    ensures KeepNonBlank(segs) == DropEmpty(KeepNonEmpty(segs))
    decreases |segs|
  {
    if |segs| > 0 {
      var init := segs[..|segs| - 1];
      var last := segs[|segs| - 1];
      KeepNonBlankDropsEmpty(init);
      var a := KeepNonEmpty(init);
      var tail := if |last| > 0 then [JavaTrim(last)] else [];
      assert KeepNonEmpty(segs) == a + tail;
      var b := a + tail;
      if |last| > 0 {
        assert b[..|b| - 1] == a;
      } else {
        assert b == a;
        assert JavaTrim(last) == "";
      }
    }
  }

  /** Every piece has at most `n` characters. */
  predicate Within(ps: seq<string>, n: nat) {
    forall i :: 0 <= i < |ps| ==> |ps[i]| <= n
  }

  lemma KeepBound(segs: seq<string>, n: nat)
    requires forall i :: 0 <= i < |segs| ==> |segs[i]| <= n
    ensures Within(KeepNonEmpty(segs), n) && Within(KeepNonBlank(segs), n)
  {
    KeepNonEmptyBound(segs, n);
    KeepNonBlankBound(segs, n);
  }

  lemma {:induction false} KeepNonEmptyBound(segs: seq<string>, n: nat)
    requires forall i :: 0 <= i < |segs| ==> |segs[i]| <= n
    ensures Within(KeepNonEmpty(segs), n)
    decreases |segs|
  {
    if |segs| > 0 {
      var init := segs[..|segs| - 1];
      var last := segs[|segs| - 1];
      assert forall i :: 0 <= i < |init| ==> init[i] == segs[i];
      KeepNonEmptyBound(init, n);
      assert |JavaTrim(last)| <= n;
      assert KeepNonEmpty(segs) == KeepNonEmpty(init) + (if |last| > 0 then [JavaTrim(last)] else []);
    }
  }

  lemma {:induction false} KeepNonBlankBound(segs: seq<string>, n: nat)
    requires forall i :: 0 <= i < |segs| ==> |segs[i]| <= n
    ensures Within(KeepNonBlank(segs), n)
    decreases |segs|
  {
    if |segs| > 0 {
      var init := segs[..|segs| - 1];
      var last := segs[|segs| - 1];
      assert forall i :: 0 <= i < |init| ==> init[i] == segs[i];
      KeepNonBlankBound(init, n);
      assert |JavaTrim(last)| <= n;
      assert KeepNonBlank(segs) == KeepNonBlank(init) + (if JavaTrim(last) != "" then [JavaTrim(last)] else []);
    }
  }

  /** `splitGenericTypes` as written: a whitespace-only argument yields an empty piece. */
  function SplitAsWritten(content: string): (r: seq<string>)
    ensures forall i :: 0 <= i < |r| ==> |r[i]| <= |content| && JavaTrim(r[i]) == r[i]
  {
    var segs := TopSegments(content);
    KeepBound(segs, |content|);
    KeepNonEmpty(segs)
  }

  /** The generic arguments, top-level commas only, trimmed, blank ones dropped. */
  function GenericTypes(content: string): (r: seq<string>)
    ensures forall i :: 0 <= i < |r| ==> |r[i]| <= |content| && r[i] != "" && JavaTrim(r[i]) == r[i]
    ensures r == DropEmpty(SplitAsWritten(content))
  {
    var segs := TopSegments(content);
    KeepBound(segs, |content|);
    KeepNonBlankDropsEmpty(segs);
    KeepNonBlank(segs)
  }

  /** Without a comma the generic arguments are the one trimmed argument, if any. */
  lemma OneArgument(content: string)
    requires ',' !in content
    ensures GenericTypes(content) == (if JavaTrim(content) == "" then [] else [JavaTrim(content)])
  {
    NoCommaOneSegment(content);
    assert [content][..0] == [];
  }

  /** No comma and no angle bracket. */
  predicate Plain(t: string) {
    forall i :: 0 <= i < |t| ==> t[i] != ',' && t[i] != '<' && t[i] != '>'
  }

  /** Plain text extends the segment being read and leaves the depth as it was. */
  lemma {:induction false} PlainExtends(s: string, t: string, done: seq<string>, current: string)
    requires Plain(t)
    requires TopSegments(s) == done + [current]
    ensures TopSegments(s + t) == done + [current + t]
    ensures Depth(s + t) == Depth(s)
    decreases |t|
  {
    if |t| > 0 {
      var init := t[..|t| - 1];
      var c := t[|t| - 1];
      PlainInit(t);
      PlainExtends(s, init, done, current);
      SplitStep(s + init, c, done, current + init);
      assert (s + init) + [c] == s + t;
      assert (current + init) + [c] == current + t;
    } else {
      assert s + t == s && current + t == current;
    }
  }

  lemma PlainInit(t: string)
    requires Plain(t) && |t| > 0
    ensures Plain(t[..|t| - 1]) && t == t[..|t| - 1] + [t[|t| - 1]]
    ensures t[|t| - 1] != ',' && t[|t| - 1] != '<' && t[|t| - 1] != '>'
  {
    var init := t[..|t| - 1];
    forall i | 0 <= i < |init| ensures init[i] != ',' && init[i] != '<' && init[i] != '>' {
      assert init[i] == t[i];
    }
  }

  /**
   * The discrepancy, for every input of this shape: between two commas at
   * depth 0, a blank argument (such as in "A, ,B") is kept as "".
   */
  lemma BlankArgumentKept(x: string, b: string, y: string)
    requires Plain(x) && Plain(b) && Plain(y)
    requires x != "" && b != "" && y != ""
    requires forall i :: 0 <= i < |b| ==> JavaSpace(b[i])
    ensures SplitAsWritten(x + "," + b + "," + y) == [JavaTrim(x), "", JavaTrim(y)]
    ensures "" in SplitAsWritten(x + "," + b + "," + y)
    ensures GenericTypes(x + "," + b + "," + y) == DropEmpty([JavaTrim(x), "", JavaTrim(y)])
  {
    BlankSegments(x, b, y);
    KeepBlankMiddle(x, b, y);
  }

  lemma KeepBlankMiddle(x: string, b: string, y: string)
    requires x != "" && b != "" && y != ""
    requires forall i :: 0 <= i < |b| ==> JavaSpace(b[i])
    ensures KeepNonEmpty([x, b, y]) == [JavaTrim(x), "", JavaTrim(y)]
  {
    assert KeepNonEmpty([x]) == [JavaTrim(x)] by {
      KeepNonEmptySnoc([], x);
      assert [] + [x] == [x];
    }
    assert KeepNonEmpty([x, b]) == [JavaTrim(x), ""] by {
      KeepNonEmptySnoc([x], b);
      assert [x] + [b] == [x, b];
      assert JavaTrim(b) == "";
    }
    KeepNonEmptySnoc([x, b], y);
    assert [x, b] + [y] == [x, b, y];
  }

  lemma BlankSegments(x: string, b: string, y: string)
    requires Plain(x) && Plain(b) && Plain(y)
    ensures TopSegments(x + "," + b + "," + y) == [x, b, y]
  {
    PlainAlone(x);
    CommaThenPlain(x, [], x, b);
    CommaThenPlain(x + "," + b, [x], b, y);
  }

  /** Plain text on its own is one segment at depth 0. */
  lemma PlainAlone(x: string)
    requires Plain(x)
    ensures TopSegments(x) == [] + [x] && Depth(x) == 0
  {
    assert TopSegments("") == [] + [""];
    PlainExtends("", x, [], "");
    assert "" + x == x;
  }

  /** A comma at depth 0 followed by plain text opens a segment holding that text. */
  lemma CommaThenPlain(s: string, done: seq<string>, current: string, t: string)
    requires TopSegments(s) == done + [current] && Depth(s) == 0 && Plain(t)
    ensures TopSegments(s + "," + t) == (done + [current]) + [t]
    ensures Depth(s + "," + t) == 0
  {
    SplitStep(s, ',', done, current);
    assert s + [','] == s + ",";
    PlainExtends(s + ",", t, done + [current], "");
    assert "" + t == t;
  }

  /** The corrected split drops it: no piece is empty. */
  lemma GenericTypesNoBlank(content: string)
    ensures "" !in GenericTypes(content)
  {
  }

  /** Reading one more character: a top-level comma opens a new segment, anything else extends the last. */
  lemma SplitStep(s: string, c: char, done: seq<string>, current: string)
    requires TopSegments(s) == done + [current]
    ensures Depth(s + [c]) == Depth(s) + DepthStep(c)
    ensures c == ',' && Depth(s) == 0 ==> TopSegments(s + [c]) == (done + [current]) + [""]
    ensures !(c == ',' && Depth(s) == 0) ==> TopSegments(s + [c]) == done + [current + [c]]
  {
    assert (s + [c])[..|s|] == s;
    assert (done + [current])[..|done|] == done;
  }

  lemma KeepNonEmptySnoc(segs: seq<string>, x: string)
    ensures KeepNonEmpty(segs + [x]) == KeepNonEmpty(segs) + (if |x| > 0 then [JavaTrim(x)] else [])
  {
    assert (segs + [x])[..|segs|] == segs;
  }

  /** One character of the splitting loop keeps its relation to the segments read so far. */
  lemma SplitAdvance(content: string, i: nat, done: seq<string>, current: string, result: seq<string>, depth: int,
                     done': seq<string>, current': string, result': seq<string>, depth': int)
    requires i < |content|
    requires var s := content[..i];
      TopSegments(s) == done + [current] && result == KeepNonEmpty(done) && depth == Depth(s)
    requires depth' == depth + DepthStep(content[i])
    requires var c := content[i];
      c == ',' && depth == 0 ==>
        done' == done + [current] && current' == ""
        && result' == result + (if |current| > 0 then [JavaTrim(current)] else [])
    requires var c := content[i];
      !(c == ',' && depth == 0) ==> done' == done && current' == current + [c] && result' == result
    ensures var s := content[..i + 1];
      TopSegments(s) == done' + [current'] && result' == KeepNonEmpty(done') && depth' == Depth(s)
  {
    var s, c := content[..i], content[i];
    TakeSnoc(content, i);
    SplitStep(s, c, done, current);
    if c == ',' && depth == 0 {
      KeepNonEmptySnoc(done, current);
    }
  }

  /** The splitting loop: a bracket depth and the piece being built. */
  method SplitGenericTypes(content: string) returns (result: seq<string>)
    ensures result == SplitAsWritten(content)
  {
    result := [];
    var current := "";
    var depth := 0;
    var i := 0;
    ghost var done: seq<string> := [];
    while i < |content|
      invariant 0 <= i <= |content|
      invariant TopSegments(content[..i]) == done + [current]
      invariant result == KeepNonEmpty(done)
      invariant depth == Depth(content[..i])
    {
      var c := content[i];
      ghost var done0, current0, result0, depth0 := done, current, result, depth;
      if c == ',' && depth == 0 {
        if |current| > 0 {
          result := result + [JavaTrim(current)];
        }
        done := done + [current];
        current := "";
      } else {
        if c == '<' {
          depth := depth + 1;
        } else if c == '>' {
          depth := depth - 1;
        }
        current := current + [c];
      }
      SplitAdvance(content, i, done0, current0, result0, depth0, done, current, result, depth);
      i := i + 1;
    }
    assert content[..i] == content;
    SplitFinish(content, done, current);
    if |current| > 0 {
      result := result + [JavaTrim(current)];
    }
  }

  /** Once the text is read, the piece still being built is the last segment. */
  lemma SplitFinish(content: string, done: seq<string>, current: string)
    requires TopSegments(content) == done + [current]
    ensures SplitAsWritten(content) == KeepNonEmpty(done) + (if |current| > 0 then [JavaTrim(current)] else [])
  {
    KeepNonEmptySnoc(done, current);
  }

  /**
   * `matchesDomainPatternOrGenerics`: the type matches, or one of the
   * top-level arguments between its first '<' and its last '>' does.
   */
  function MatchesOrGenerics(fqn: string, patterns: seq<string>): bool
    decreases |fqn|
  {
    MatchesDomain(Some(fqn), patterns)
    || ('<' in fqn && '>' in fqn
        && var start := IndexOfChar(fqn, '<');
           var end := LastIndexOfChar(fqn, '>');
           start < end
           && exists p :: p in GenericTypes(fqn[start + 1..end]) && MatchesOrGenerics(JavaTrim(p), patterns))
  }

  /** The same test over the as-written split, blank arguments included. */
  function MatchesOrGenericsAsWritten(fqn: string, patterns: seq<string>): bool
    decreases |fqn|
  {
    MatchesDomain(Some(fqn), patterns)
    || ('<' in fqn && '>' in fqn
        && var start := IndexOfChar(fqn, '<');
           var end := LastIndexOfChar(fqn, '>');
           start < end
           && exists p :: p in SplitAsWritten(fqn[start + 1..end]) && MatchesOrGenericsAsWritten(JavaTrim(p), patterns))
  }

  /**
   * The blank argument never changes the verdict: if "" matched, the whole
   * type would have matched already.
   */
  lemma BlankArgumentHarmless(fqn: string, patterns: seq<string>)
    ensures MatchesOrGenerics(fqn, patterns) == MatchesOrGenericsAsWritten(fqn, patterns)
  {
    FixedImpliesWritten(fqn, patterns);
    WrittenImpliesFixed(fqn, patterns);
  }

  lemma {:induction false} FixedImpliesWritten(fqn: string, patterns: seq<string>)
    ensures MatchesOrGenerics(fqn, patterns) ==> MatchesOrGenericsAsWritten(fqn, patterns)
    decreases |fqn|
  {
    if MatchesOrGenerics(fqn, patterns) && !MatchesDomain(Some(fqn), patterns) {
      var start := IndexOfChar(fqn, '<');
      var end := LastIndexOfChar(fqn, '>');
      var content := fqn[start + 1..end];
      var p :| p in GenericTypes(content) && MatchesOrGenerics(JavaTrim(p), patterns);
      assert p in SplitAsWritten(content);
      FixedImpliesWritten(JavaTrim(p), patterns);
      WrittenArgumentLifts(fqn, patterns, p);
    }
  }

  /** An as-written argument that matches makes the type around it match. */
  lemma WrittenArgumentLifts(fqn: string, patterns: seq<string>, p: string)
    requires '<' in fqn && '>' in fqn && IndexOfChar(fqn, '<') < LastIndexOfChar(fqn, '>')
    requires p in SplitAsWritten(fqn[IndexOfChar(fqn, '<') + 1..LastIndexOfChar(fqn, '>')])
    requires MatchesOrGenericsAsWritten(JavaTrim(p), patterns)
    ensures MatchesOrGenericsAsWritten(fqn, patterns)
  {
  }

  /** A corrected argument that matches makes the type around it match. */
  lemma FixedArgumentLifts(fqn: string, patterns: seq<string>, p: string)
    requires '<' in fqn && '>' in fqn && IndexOfChar(fqn, '<') < LastIndexOfChar(fqn, '>')
    requires p in GenericTypes(fqn[IndexOfChar(fqn, '<') + 1..LastIndexOfChar(fqn, '>')])
    requires MatchesOrGenerics(JavaTrim(p), patterns)
    ensures MatchesOrGenerics(fqn, patterns)
  {
  }

  lemma {:induction false} WrittenImpliesFixed(fqn: string, patterns: seq<string>)
    ensures MatchesOrGenericsAsWritten(fqn, patterns) ==> MatchesOrGenerics(fqn, patterns)
    decreases |fqn|
  {
    if MatchesOrGenericsAsWritten(fqn, patterns) && !MatchesDomain(Some(fqn), patterns) {
      var start := IndexOfChar(fqn, '<');
      var end := LastIndexOfChar(fqn, '>');
      var content := fqn[start + 1..end];
      var p :| p in SplitAsWritten(content) && MatchesOrGenericsAsWritten(JavaTrim(p), patterns);
      if p == "" {
        assert JavaTrim(p) == "";
        assert MatchesDomain(Some(""), patterns);
        EmptyNameMatchesAll(patterns, fqn);
      } else {
        assert p in GenericTypes(content);
        WrittenImpliesFixed(JavaTrim(p), patterns);
        FixedArgumentLifts(fqn, patterns, p);
      }
    }
  }

  /** A type with no '<' matches exactly when its whole name does. */
  lemma PlainTypeMatches(fqn: string, patterns: seq<string>)
    requires '<' !in fqn
    ensures MatchesOrGenerics(fqn, patterns) == MatchesDomain(Some(fqn), patterns)
  {
  }

  /** The first `c` of `a + [c] + b` is at `|a|` when `a` has none. */
  lemma FirstCharAt(a: string, c: char, b: string)
    requires c !in a
    ensures IndexOfChar(a + [c] + b, c) == |a|
  {
    var s := a + [c] + b;
    assert s[|a|] == c;
  }

  /** The last `c` of `a + [c]` is its final character. */
  lemma LastCharAt(a: string, c: char)
    ensures LastIndexOfChar(a + [c], c) == |a|
  {
    var s := a + [c];
    assert s[|a|] == c;
  }

  /** An argument that matches makes the generic type around it match. */
  lemma ArgumentMatchLifts(outer: string, arg: string, patterns: seq<string>)
    requires '<' !in outer && ',' !in arg
    requires arg != "" && arg[0] > ' ' && arg[|arg| - 1] > ' '
    requires MatchesDomain(Some(arg), patterns)
    ensures MatchesOrGenerics(outer + "<" + arg + ">", patterns)
  {
    var fqn := outer + "<" + arg + ">";
    GenericsWindow(outer, arg);
    OneArgument(arg);
    TrimUnchanged(arg, JavaSpace);
    assert arg in GenericTypes(arg);
  }

  /** In `outer<inner>` with no '<' in `outer`, the text between the first '<' and the last '>' is `inner`. */
  lemma GenericsWindow(outer: string, inner: string)
    requires '<' !in outer
    ensures var fqn := outer + "<" + inner + ">";
      '<' in fqn && '>' in fqn && IndexOfChar(fqn, '<') == |outer| && LastIndexOfChar(fqn, '>') == |fqn| - 1
      && fqn[|outer| + 1..|fqn| - 1] == inner
  {
    var fqn := outer + "<" + inner + ">";
    assert fqn == outer + ['<'] + (inner + ">");
    FirstCharAt(outer, '<', inner + ">");
    assert fqn == (outer + "<" + inner) + ['>'];
    LastCharAt(outer + "<" + inner, '>');
    assert fqn[|outer| + 1..|fqn| - 1] == inner;
  }

  // ---------------------------------------------------------------------
  // URIs and names

  /** The characters Java's regular expressions treat as line terminators. */
  predicate LineTerminator(c: char) {
    c == '\n' || c == '\r' || c == '\U{85}' || c == '\U{2028}' || c == '\U{2029}'
  }

  /**
   * `normalized.matches("^[a-zA-Z]:/.*")`: a drive letter, a colon and a
   * slash, then no line terminator (`.` does not match one).
   */
  predicate WindowsAbsolute(n: string) {
    |n| >= 3 && (IsAsciiUpper(n[0]) || IsAsciiLower(n[0])) && n[1] == ':' && n[2] == '/'
    && forall i :: 3 <= i < |n| ==> !LineTerminator(n[i])
  }

  /** `pathToUri(path)`: separators made '/', and a "file:" scheme put in front. */
  function PathToUri(path: Option<string>): (r: Option<string>)
    ensures r.None? <==> path.None?
  {
    match path
    case None => None
    case Some(p) =>
      var n := ReplaceChar(p, '\\', '/');
      if StartsWith(n, "file:///") then Some(n)
      else if WindowsAbsolute(n) then Some("file:///" + n)
      else if StartsWith(n, "/") then Some("file://" + n)
      else Some("file:///" + n)
  }

  /**
   * What `pathToUri` makes of a path: a "file:///" URI ending with the
   * path, every '\\' turned into '/'; a path that is already such a URI is
   * kept, and an absolute Unix path gets "file://" in front.
   */
  lemma PathToUriShape(path: string)
    ensures var r := PathToUri(Some(path)).value; var n := ReplaceChar(path, '\\', '/');
      StartsWith(r, "file:///") && EndsWith(r, n) && '\\' !in r
      && (StartsWith(n, "file:///") ==> r == n)
      && (!StartsWith(n, "file:///") && StartsWith(n, "/") ==> r == "file://" + n)
      && (!StartsWith(n, "file:///") && !StartsWith(n, "/") ==> r == "file:///" + n)
  {
  }

  /** A URI made by `pathToUri` is left as it is. */
  lemma PathToUriIdempotent(path: Option<string>)
    ensures PathToUri(PathToUri(path)) == PathToUri(path)
  {
    if path.Some? {
      PathToUriShape(path.value);
      var u := PathToUri(path).value;
      assert ReplaceChar(u, '\\', '/') == u;
    }
  }

  /** `pathToUri(path, line)`: the URI followed by ":" and the line number. */
  function PathToUriLine(path: Option<string>, line: int): (r: Option<string>)
    ensures r.None? <==> path.None?
  {
    match PathToUri(path)
    case None => None
    case Some(u) => Some(u + ":" + IntToString(line))
  }

  /** The line number is what follows the last ':' of such a URI, even after a drive letter. */
  lemma UriLineRecoverable(path: string, line: int)
    ensures LastPiece(PathToUriLine(Some(path), line).value, ':') == IntToString(line)
  {
    var u := PathToUri(Some(path)).value;
    var d := IntToString(line);
    NumberHasNoColon(line);
    assert u + ":" + d == (u + ":") + d;
    LastAfterFree(u + ":", d, ':');
  }

  lemma NumberHasNoColon(n: int)
    ensures ':' !in IntToString(n)
  {
    var d := IntToString(n);
    if n < 0 {
      var digits := NatToString(-n);
      assert d == "-" + digits;
      assert forall i :: 0 <= i < |digits| ==> IsDigit(digits[i]);
      assert ':' !in digits;
    } else {
      assert forall i :: 0 <= i < |d| ==> IsDigit(d[i]);
    }
  }

  /** The last piece after a final separator followed by text without one is that text. */
  lemma LastAfterFree(a: string, d: string, c: char)
    requires |a| > 0 && a[|a| - 1] == c && c !in d
    ensures LastPiece(a + d, c) == d
  {
    var r := a + d;
    SplitLastShape(r, c);
    var l := LastPiece(r, c);
    assert c in r by { assert r[|a| - 1] == c; }
    var m := |r| - |l| - 1;
    assert r[m] == c;
    assert r[m + 1..] == l;
    assert r[|a|..] == d;
  }

  /** What precedes the first '<', or the whole text when there is none. */
  function BeforeGenerics(s: string): string {
    var g := IndexOfChar(s, '<');
    if g >= 0 then s[..g] else s
  }

  /** `extractMethodName`: the text after the last '.' of what precedes the first '<'. */
  function ExtractMethodName(fqn: Option<string>): (r: Option<string>)
    ensures r.None? <==> fqn.None?
  {
    match fqn
    case None => None
    case Some(s) =>
      Some(AfterLast(BeforeGenerics(s), '.'))
  }

  /**
   * The simple name has no '<' and no '.': it is the end of the text before
   * the first '<', cut just after a '.' or taken whole.
   */
  lemma SimpleNameShape(fqn: string)
    ensures var r := ExtractMethodName(Some(fqn)).value; var base := BeforeGenerics(fqn);
      '<' !in r && '.' !in r
      && EndsWith(base, r) && (|r| < |base| ==> base[|base| - |r| - 1] == '.')
  {
    var r := ExtractMethodName(Some(fqn)).value;
    var base := BeforeGenerics(fqn);
    assert '<' !in base;
    AfterLastIndex(base, '.');
    var d := LastIndexOfChar(base, '.');
    assert r == base[d + 1..];
    assert base[|base| - |r|..] == r;
  }

  /** A qualified name `q.name`, with or without generic arguments, has the simple name `name`. */
  lemma SimpleNameOfQualified(q: string, name: string, args: string)
    requires '<' !in q && '<' !in name && '.' !in name
    requires args == "" || args[0] == '<'
    ensures ExtractMethodName(Some(q + "." + name + args)) == Some(name)
  {
    var s := q + "." + name + args;
    var base := q + "." + name;
    if args != "" {
      assert s == base + ['<'] + args[1..];
      FirstCharAt(base, '<', args[1..]);
      assert s[..|base|] == base;
    } else {
      assert s == base;
    }
    assert base == q + ['.'] + name;
    AfterLastSuffix(q, '.', name);
  }

  // ---------------------------------------------------------------------
  // Kinds

  /** The usage types the collector writes: eight forward ones and four inverses. */
  datatype UsageType =
    | Declaration | Parameter | ReturnType | MethodCall | ConstructorCall | Extends | Implements | FieldInjection
    | ParameterOf | ReturnTypeOf | MethodCalledBy | ConstructorCalledBy

  /** The name a usage type has in the records. */
  function TypeName(t: UsageType): string {
    match t
    case Declaration => "java_declaration"
    case Parameter => "java_parameter"
    case ReturnType => "java_return_type"
    case MethodCall => "java_method_call"
    case ConstructorCall => "java_constructor_call"
    case Extends => "java_extends"
    case Implements => "java_implements"
    case FieldInjection => "java_field_injection"
    case ParameterOf => "java_parameter_of"
    case ReturnTypeOf => "java_return_type_of"
    case MethodCalledBy => "java_method_called_by"
    case ConstructorCalledBy => "java_constructor_called_by"
  }

  /** The kinds of caller and callee. */
  datatype Kind = KConstructor | KMethod | KClass | KInterface | KUnknown

  function KindName(k: Kind): string {
    match k
    case KConstructor => "constructor"
    case KMethod => "method"
    case KClass => "class"
    case KInterface => "interface"
    case KUnknown => "unknown"
  }

  predicate NamesConstructor(fqn: Option<string>) {
    fqn.Some? && Contains(fqn.value, "<init>")
  }

  /** `getCallerKind`: constructors by name, then the usage-type table; `inMethod` is whether a method is being visited. */
  function CallerKind(t: UsageType, callerFqn: Option<string>, inMethod: bool): Kind {
    if NamesConstructor(callerFqn) then KConstructor
    else
      match t
      case Declaration | ReturnType | Parameter => KMethod
      case MethodCall | ConstructorCall => if inMethod then KMethod else KClass
      case Extends | Implements | FieldInjection => KClass
      case _ => KUnknown
  }

  /** `getCalleeKind`: constructors by name, then the usage-type table. */
  function CalleeKind(t: UsageType, calleeFqn: Option<string>): Kind {
    if NamesConstructor(calleeFqn) then KConstructor
    else
      match t
      case MethodCall => KMethod
      case ConstructorCall => KConstructor
      case Extends => KClass
      case Implements => KInterface
      case FieldInjection | Parameter | ReturnType => KClass
      case _ => KUnknown
  }

  /**
   * The kind tables: a name containing "<init>" is a constructor whatever
   * the usage, a caller is never an interface, and only the inverse types,
   * which the tables do not list, are of unknown kind.
   */
  lemma KindTables(t: UsageType, fqn: Option<string>, inMethod: bool)
    ensures NamesConstructor(fqn) ==> CallerKind(t, fqn, inMethod) == KConstructor && CalleeKind(t, fqn) == KConstructor
    ensures !NamesConstructor(fqn) ==> CallerKind(t, fqn, inMethod) != KConstructor
    ensures CallerKind(t, fqn, inMethod) != KInterface
    ensures CalleeKind(t, fqn) == KConstructor <==> NamesConstructor(fqn) || t == ConstructorCall
    ensures CalleeKind(t, fqn) == KInterface <==> !NamesConstructor(fqn) && t == Implements
    ensures !NamesConstructor(fqn) ==>
              (CallerKind(t, fqn, inMethod) == KUnknown <==> t in {ParameterOf, ReturnTypeOf, MethodCalledBy, ConstructorCalledBy})
              && (CalleeKind(t, fqn) == KUnknown <==> t in {Declaration, ParameterOf, ReturnTypeOf, MethodCalledBy, ConstructorCalledBy})
  {
  }

  // ---------------------------------------------------------------------
  // Names of the scope being visited

  const Unknown: string := "UNKNOWN"

  /** The parts that are present, in order. */
  function Present(parts: seq<Option<string>>): (r: seq<string>)
    ensures |r| <= |parts|
    decreases |parts|
  {
    if |parts| == 0 then []
    else (if parts[0].Some? then [parts[0].value] else []) + Present(parts[1..])
  }

  /** `getSourceFQN`: the package, then the class and method when present, dot-joined. */
  function SourceFqn(pkg: Option<string>, cls: Option<string>, meth: Option<string>): (r: string)
    ensures pkg.None? ==> r == Unknown
    ensures pkg.Some? ==> StartsWith(r, pkg.value)
  {
    if pkg.None? then Unknown
    else
      var withClass := if cls.Some? then pkg.value + "." + cls.value else pkg.value;
      if meth.Some? then withClass + "." + meth.value else withClass
  }

  /** The source name is the dot-join of the parts that are present. */
  lemma SourceFqnIsJoin(pkg: string, cls: Option<string>, meth: Option<string>)
    ensures SourceFqn(Some(pkg), cls, meth) == Join(Present([Some(pkg), cls, meth]), ".")
  {
    assert [Some(pkg), cls, meth][1..] == [cls, meth] && [cls, meth][1..] == [meth];
    assert [meth][1..] == [];
    var tail := if meth.Some? then [meth.value] else [];
    assert Present([meth]) == tail;
    var mid := (if cls.Some? then [cls.value] else []) + tail;
    assert Present([cls, meth]) == mid;
    assert Present([Some(pkg), cls, meth]) == [pkg] + mid;
    if cls.Some? && meth.Some? {
      JoinCons(pkg, [cls.value, meth.value], ".");
      JoinCons(cls.value, [meth.value], ".");
      assert [pkg] + mid == [pkg, cls.value, meth.value];
    } else if cls.Some? {
      JoinCons(pkg, [cls.value], ".");
      assert [pkg] + mid == [pkg, cls.value];
    } else if meth.Some? {
      JoinCons(pkg, [meth.value], ".");
      assert [pkg] + mid == [pkg, meth.value];
    } else {
      assert [pkg] + mid == [pkg];
    }
  }


  /** `getClassFQN`. */
  function ClassFqn(pkg: Option<string>, cls: Option<string>): (r: string)
    ensures pkg.None? || cls.None? ==> r == Unknown
    ensures pkg.Some? && cls.Some? ==> r == pkg.value + "." + cls.value
  {
    if pkg.None? || cls.None? then Unknown else pkg.value + "." + cls.value
  }

  /** `getMethodFQN`. */
  function MethodFqn(pkg: Option<string>, cls: Option<string>, meth: Option<string>): (r: string)
    ensures pkg.None? || cls.None? || meth.None? ==> r == Unknown
    ensures pkg.Some? && cls.Some? && meth.Some? ==> r == pkg.value + "." + cls.value + "." + meth.value
  {
    if pkg.None? || cls.None? || meth.None? then Unknown
    else pkg.value + "." + cls.value + "." + meth.value
  }

  /** `getConstructorFQN`. */
  function ConstructorFqn(pkg: Option<string>, cls: Option<string>): (r: string)
    ensures pkg.None? || cls.None? ==> r == Unknown
    ensures pkg.Some? && cls.Some? ==> r == pkg.value + "." + cls.value + ".<init>"
  {
    if pkg.None? || cls.None? then Unknown else pkg.value + "." + cls.value + ".<init>"
  }

  /**
   * The names nest: inside a class and a method every builder extends the
   * class name, the source name is the method name, and a constructor is
   * the method named "<init>".
   */
  lemma FqnNesting(pkg: string, cls: string, meth: string)
    ensures SourceFqn(Some(pkg), Some(cls), Some(meth)) == MethodFqn(Some(pkg), Some(cls), Some(meth))
    ensures SourceFqn(Some(pkg), Some(cls), None) == ClassFqn(Some(pkg), Some(cls))
    ensures MethodFqn(Some(pkg), Some(cls), Some(meth)) == ClassFqn(Some(pkg), Some(cls)) + "." + meth
    ensures ConstructorFqn(Some(pkg), Some(cls)) == MethodFqn(Some(pkg), Some(cls), Some("<init>"))
  {
  }

  /** The simple name of a method's name is the method, of its class's name the class. */
  lemma SimpleNamesOfScope(pkg: string, cls: string, meth: string)
    requires '<' !in pkg && '<' !in cls && '.' !in cls && '<' !in meth && '.' !in meth
    ensures ExtractMethodName(Some(MethodFqn(Some(pkg), Some(cls), Some(meth)))) == Some(meth)
    ensures ExtractMethodName(Some(ClassFqn(Some(pkg), Some(cls)))) == Some(cls)
  {
    var q := pkg + "." + cls;
    SimpleNameOfQualified(q, meth, "");
    assert q + "." + meth + "" == MethodFqn(Some(pkg), Some(cls), Some(meth));
    SimpleNameOfQualified(pkg, cls, "");
    assert pkg + "." + cls + "" == ClassFqn(Some(pkg), Some(cls));
  }

  /** A constructor's own name has an empty simple name: everything from "<init>" on is cut. */
  lemma ConstructorSimpleNameEmpty(pkg: string, cls: string)
    requires '<' !in pkg && '<' !in cls
    ensures ExtractMethodName(Some(ConstructorFqn(Some(pkg), Some(cls)))) == Some("")
  {
    var base := pkg + "." + cls + ".";
    var s := ConstructorFqn(Some(pkg), Some(cls));
    assert s == base + ['<'] + "init>";
    FirstCharAt(base, '<', "init>");
    assert s[..|base|] == base;
    assert base == (pkg + "." + cls) + ['.'];
    LastCharAt(pkg + "." + cls, '.');
  }

  // ---------------------------------------------------------------------
  // Usage records

  /** Where resolution placed a declaration: its file and first line, each possibly unknown. */
  datatype Location = Location(file: Option<string>, line: Option<int>)

  /** What a usage record needs of the visitor's state. */
  datatype Scope = Scope(filePath: Option<string>, moduleName: Option<string>, inMethod: bool)

  /**
   * One usage record. Every record the collector builds has all twelve
   * keys; a null entry is `None`.
   */
  datatype Usage = Usage(usageType: UsageType,
                         callerUri: Option<string>, callerLine: Option<int>, callerSymbol: string,
                         callerKind: Kind, callerFqn: string,
                         calleeUri: Option<string>, calleeLine: Option<int>, calleeSymbol: string,
                         calleeKind: Kind, calleeFqn: string,
                         moduleName: Option<string>)

  /** Where the callee of a usage is placed: its declaration's location, as far as it is known. */
  function CalleeLocation(scope: Scope, usageType: UsageType, line: int, decl: Option<Location>): (r: (Option<string>, Option<int>))
    // a declaration without a resolved location is located where it is declared
    ensures decl.None? && usageType == Declaration ==> r == (PathToUriLine(scope.filePath, line), Some(line))
    ensures decl.None? && usageType != Declaration ==> r == (None, None)
    ensures decl.Some? && decl.value.file.None? ==> r == (None, None)
    ensures decl.Some? && decl.value.file.Some? ==> r.1 == decl.value.line && r.0.Some?
    ensures decl.Some? && decl.value.file.Some? && decl.value.line.Some? ==>
              r.0 == PathToUriLine(decl.value.file, decl.value.line.value)
  {
    match decl
    case None => if usageType == Declaration then (PathToUriLine(scope.filePath, line), Some(line)) else (None, None)
    case Some(Location(file, l)) =>
      if file.None? then (None, None)
      else if l.Some? then (PathToUriLine(file, l.value), Some(l.value))
      else (PathToUri(file), None)
  }

  /**
   * `createUsage`, both overloads: `decl` is the resolved declaration's
   * location, or None for the overload that has none.
   */
  function CreateUsage(scope: Scope, usageType: UsageType, callerFqn: string, calleeFqn: string, line: int,
                       decl: Option<Location>): Usage
  {
    var callee := CalleeLocation(scope, usageType, line, decl);
    Usage(usageType,
          PathToUriLine(scope.filePath, line), Some(line), ExtractMethodName(Some(callerFqn)).value,
          CallerKind(usageType, Some(callerFqn), scope.inMethod), callerFqn,
          callee.0, callee.1, ExtractMethodName(Some(calleeFqn)).value,
          CalleeKind(usageType, Some(calleeFqn)), calleeFqn,
          scope.moduleName)
  }

  /**
   * Where a usage record places its ends: the caller at the visited line of
   * the visited file, the line recoverable from its URI; a callee without a
   * resolved declaration only when it is the member being declared, and
   * then at the same place.
   */
  lemma CreatedUsagePlaces(scope: Scope, usageType: UsageType, callerFqn: string, calleeFqn: string, line: int,
                           decl: Option<Location>)
    ensures var u := CreateUsage(scope, usageType, callerFqn, calleeFqn, line, decl);
      u.usageType == usageType && u.moduleName == scope.moduleName && u.callerLine == Some(line)
      && (u.callerUri.Some? <==> scope.filePath.Some?)
      && (scope.filePath.Some? ==> LastPiece(u.callerUri.value, ':') == IntToString(line))
      && (decl.None? ==> (u.calleeUri.Some? <==> usageType == Declaration && scope.filePath.Some?))
      && (decl.None? && usageType == Declaration ==> u.calleeUri == u.callerUri && u.calleeLine == u.callerLine)
  {
    var u := CreateUsage(scope, usageType, callerFqn, calleeFqn, line, decl);
    assert u.callerUri == PathToUriLine(scope.filePath, line);
    if scope.filePath.Some? {
      UriLineRecoverable(scope.filePath.value, line);
    }
  }

  /**
   * What a usage record names: both symbols are simple names of the two
   * qualified names, a caller is never an interface, and the callee is a
   * constructor exactly for a constructor call or a name with "<init>".
   */
  lemma CreatedUsageNames(scope: Scope, usageType: UsageType, callerFqn: string, calleeFqn: string, line: int,
                          decl: Option<Location>)
    ensures var u := CreateUsage(scope, usageType, callerFqn, calleeFqn, line, decl);
      '.' !in u.callerSymbol && '<' !in u.callerSymbol && '.' !in u.calleeSymbol && '<' !in u.calleeSymbol
      && u.callerFqn == callerFqn && u.calleeFqn == calleeFqn
      && u.callerKind != KInterface
      && (u.calleeKind == KConstructor <==> NamesConstructor(Some(calleeFqn)) || usageType == ConstructorCall)
  {
    var u := CreateUsage(scope, usageType, callerFqn, calleeFqn, line, decl);
    assert u.callerSymbol == ExtractMethodName(Some(callerFqn)).value;
    assert u.calleeSymbol == ExtractMethodName(Some(calleeFqn)).value;
    SimpleNameShape(callerFqn);
    SimpleNameShape(calleeFqn);
    KindTables(usageType, Some(callerFqn), scope.inMethod);
    KindTables(usageType, Some(calleeFqn), scope.inMethod);
  }

  /** A constructor's inverse names the constructor "<init>" rather than its class. */
  predicate InitSymbol(orig: Usage, inverseType: UsageType) {
    inverseType == ConstructorCalledBy && orig.calleeKind == KConstructor
  }

  /** `b` is `a` read from the other end: every caller field is the other's callee field. */
  predicate Mirrored(a: Usage, b: Usage) {
    a.callerUri == b.calleeUri && a.callerLine == b.calleeLine && a.callerKind == b.calleeKind
    && a.callerFqn == b.calleeFqn && a.calleeUri == b.callerUri && a.calleeLine == b.callerLine
    && a.calleeKind == b.callerKind && a.calleeFqn == b.callerFqn && a.callerSymbol == b.calleeSymbol
  }

  /** `createBidirectionalUsage`: the same relation read from the other end. */
  function Bidirectional(orig: Usage, inverseType: UsageType): (r: Usage)
    ensures r.usageType == inverseType && r.moduleName == orig.moduleName
    ensures Mirrored(orig, r)
    ensures r.callerSymbol == (if InitSymbol(orig, inverseType) then "<init>" else orig.calleeSymbol)
  {
    Usage(inverseType,
          orig.calleeUri, orig.calleeLine,
          if InitSymbol(orig, inverseType) then "<init>" else orig.calleeSymbol,
          orig.calleeKind, orig.calleeFqn,
          orig.callerUri, orig.callerLine, orig.callerSymbol, orig.callerKind, orig.callerFqn,
          orig.moduleName)
  }

  /**
   * Inverting twice gives the usage back, once the usage type is restored,
   * unless one of the two inversions renamed a constructor "<init>".
   */
  lemma InverseOfInverse(u: Usage, inverseType: UsageType)
    requires !InitSymbol(u, inverseType)
    requires !(u.usageType == ConstructorCalledBy && u.callerKind == KConstructor)
    ensures Bidirectional(Bidirectional(u, inverseType), u.usageType) == u
  {
  }

  /** The inverse of a forward usage made by the collector: callee and caller exchanged. */
  lemma InverseOfCreated(scope: Scope, usageType: UsageType, callerFqn: string, calleeFqn: string, line: int,
                         decl: Option<Location>, inverseType: UsageType)
    ensures var v := Bidirectional(CreateUsage(scope, usageType, callerFqn, calleeFqn, line, decl), inverseType);
      v.callerFqn == calleeFqn && v.calleeFqn == callerFqn
      && v.calleeUri == PathToUriLine(scope.filePath, line) && v.calleeLine == Some(line)
      && Some(v.calleeSymbol) == ExtractMethodName(Some(callerFqn))
      && v.callerKind == CalleeKind(usageType, Some(calleeFqn))
      && v.calleeKind == CallerKind(usageType, Some(callerFqn), scope.inMethod)
      && v.moduleName == scope.moduleName
      && (inverseType == ConstructorCalledBy && v.callerKind == KConstructor ==> v.callerSymbol == "<init>")
      && (inverseType != ConstructorCalledBy ==> Some(v.callerSymbol) == ExtractMethodName(Some(calleeFqn)))
  {
  }

  /** A constructor call's inverse is named "<init>", whatever the class's simple name. */
  lemma ConstructorInverseNamedInit(scope: Scope, callerFqn: string, calleeFqn: string, line: int, decl: Option<Location>)
    ensures Bidirectional(CreateUsage(scope, ConstructorCall, callerFqn, calleeFqn, line, decl),
                          ConstructorCalledBy).callerSymbol == "<init>"
  {
  }

  // ---------------------------------------------------------------------
  // Imports

  /** One import declaration of the compilation unit. */
  datatype Import = Import(name: string, asterisk: bool, isStatic: bool)

  /** The key an import is found under: the text after its last '.'. */
  function ImportKey(name: string): string {
    AfterLast(name, '.')
  }

  /** An import's key is its simple name: the end of the name, with no '.'. */
  lemma ImportKeyShape(name: string)
    ensures '.' !in ImportKey(name) && EndsWith(name, ImportKey(name))
  {
    AfterLastIndex(name, '.');
    var d := LastIndexOfChar(name, '.');
    assert name[|name| - |ImportKey(name)|..] == ImportKey(name);
  }

  /** The import map after recording `imports` into `m`; a later import of the same simple name wins. */
  function ImportsInto(m: map<string, string>, imports: seq<Import>): map<string, string>
    decreases |imports|
  {
    if |imports| == 0 then m
    else
      var last := imports[|imports| - 1];
      var before := ImportsInto(m, imports[..|imports| - 1]);
      if Recorded(last) then before[ImportKey(last.name) := last.name] else before
  }

  /** The `i`-th import is recorded and found under `k`. */
  predicate RecordedUnder(imports: seq<Import>, i: int, k: string) {
    0 <= i < |imports| && Recorded(imports[i]) && ImportKey(imports[i].name) == k
  }

  /** The keys after recording: the old ones and the key of every recorded import, and no others. */
  lemma {:induction false} ImportsKeys(m: map<string, string>, imports: seq<Import>, k: string)
    ensures k in ImportsInto(m, imports) <==> k in m || exists i :: RecordedUnder(imports, i, k)
    decreases |imports|
  {
    if |imports| > 0 {
      ImportsKeys(m, imports[..|imports| - 1], k);
      RecordedUnderSnoc(imports, k);
    }
  }

  /** An import of a longer list is found under `k` when one of the shorter list is, or the last one is. */
  lemma RecordedUnderSnoc(imports: seq<Import>, k: string)
    requires |imports| > 0
    ensures var init := imports[..|imports| - 1]; var last := imports[|imports| - 1];
      (exists i :: RecordedUnder(imports, i, k))
      <==> (exists i :: RecordedUnder(init, i, k)) || (Recorded(last) && ImportKey(last.name) == k)
  {
    var init := imports[..|imports| - 1];
    var last := imports[|imports| - 1];
    if Recorded(last) && ImportKey(last.name) == k {
      assert RecordedUnder(imports, |imports| - 1, k);
    }
    if exists i :: RecordedUnder(imports, i, k) {
      var i :| RecordedUnder(imports, i, k);
      if i < |init| {
        assert init[i] == imports[i];
        assert RecordedUnder(init, i, k);
      }
    }
    if exists i :: RecordedUnder(init, i, k) {
      var i :| RecordedUnder(init, i, k);
      assert init[i] == imports[i];
      assert RecordedUnder(imports, i, k);
    }
  }

  /** Only single-type, non-static imports are recorded. */
  predicate Recorded(imp: Import) {
    !imp.asterisk && !imp.isStatic
  }

  /** The name found under a key is the last recorded import with that key. */
  lemma {:induction false} ImportLastWins(m: map<string, string>, imports: seq<Import>, i: nat)
    requires i < |imports| && Recorded(imports[i])
    requires forall j :: i < j < |imports| && Recorded(imports[j]) ==> ImportKey(imports[j].name) != ImportKey(imports[i].name)
    ensures ImportKey(imports[i].name) in ImportsInto(m, imports)
            && ImportsInto(m, imports)[ImportKey(imports[i].name)] == imports[i].name
    decreases |imports|
  {
    if i < |imports| - 1 {
      var init := imports[..|imports| - 1];
      assert init[i] == imports[i];
      forall j | i < j < |init| && Recorded(init[j])
        ensures ImportKey(init[j].name) != ImportKey(init[i].name)
      {
        assert init[j] == imports[j];
      }
      ImportLastWins(m, init, i);
    }
  }

  /**
   * The fallback when a parameter type does not resolve: an imported
   * simple name, else an upper-case name taken to be in the same package.
   */
  function FallbackFqn(imports: map<string, string>, typeName: string, pkg: string): Option<string>
    requires typeName != ""
  {
    if typeName in imports then Some(imports[typeName])
    else if IsAsciiUpper(typeName[0]) then Some(if pkg == "" then typeName else pkg + "." + typeName)
    else None
  }

  /**
   * An imported simple name stands for its import; otherwise only a name
   * with an upper-case first letter is taken, as a class of the package.
   */
  lemma FallbackFqnCases(imports: map<string, string>, typeName: string, pkg: string)
    requires typeName != ""
    ensures var r := FallbackFqn(imports, typeName, pkg);
      (typeName in imports ==> r == Some(imports[typeName]))
      && (typeName !in imports && !IsAsciiUpper(typeName[0]) ==> r.None?)
      && (typeName !in imports && IsAsciiUpper(typeName[0]) ==>
            r.Some? && EndsWith(r.value, typeName) && (pkg != "" ==> StartsWith(r.value, pkg + ".")))
  {
    if typeName !in imports && IsAsciiUpper(typeName[0]) && pkg != "" {
      var r := pkg + "." + typeName;
      assert r[|r| - |typeName|..] == typeName;
      assert r[..|pkg + "."|] == pkg + ".";
    }
  }

  // ---------------------------------------------------------------------
  // The visitor

  /** A supertype named in an `extends` or `implements` clause, with its resolved location if any. */
  datatype Supertype = Supertype(fqn: string, decl: Option<Location>)

  /** One usage per supertype, in order, from the class to the supertype. */
  function SupertypeUsages(scope: Scope, usageType: UsageType, classFqn: string, line: int, parents: seq<Supertype>): seq<Usage> {
    seq(|parents|, i requires 0 <= i < |parents| => CreateUsage(scope, usageType, classFqn, parents[i].fqn, line, parents[i].decl))
  }

  lemma {:induction false} SupertypeUsagesSnoc(scope: Scope, usageType: UsageType, classFqn: string, line: int, parents: seq<Supertype>, i: nat)
    requires i < |parents|
    ensures SupertypeUsages(scope, usageType, classFqn, line, parents[..i + 1])
         == SupertypeUsages(scope, usageType, classFqn, line, parents[..i])
            + [CreateUsage(scope, usageType, classFqn, parents[i].fqn, line, parents[i].decl)]
  {
    var a := SupertypeUsages(scope, usageType, classFqn, line, parents[..i + 1]);
    var b := SupertypeUsages(scope, usageType, classFqn, line, parents[..i]);
    var u := CreateUsage(scope, usageType, classFqn, parents[i].fqn, line, parents[i].decl);
    forall j | 0 <= j < i ensures a[j] == b[j] {
      assert parents[..i + 1][j] == parents[..i][j];
    }
    assert a[i] == u;
    assert a == b + [u];
  }

  /** A forward usage followed by its inverse. */
  function WithInverse(forward: Usage, inverseType: UsageType): seq<Usage> {
    [forward, Bidirectional(forward, inverseType)]
  }

  /** `n` copies of `x`. */
  function Repeat<T>(x: T, n: nat): (r: seq<T>)
    ensures |r| == n && forall i :: 0 <= i < n ==> r[i] == x
  {
    if n == 0 then [] else Repeat(x, n - 1) + [x]
  }

  /**
   * The visitor's state: the file's package, module and path, the domain
   * patterns, the class and method being visited, the import map and the
   * usages collected so far.
   */
  class Collector {
    const packageName: Option<string>
    const moduleName: Option<string>
    const filePath: Option<string>
    const patterns: seq<string>
    var className: Option<string>
    var methodName: Option<string>
    var imports: map<string, string>
    var usages: seq<Usage>

    constructor (packageName: Option<string>, moduleName: Option<string>, filePath: Option<string>,
                 domainPatterns: Option<seq<string>>)
      ensures this.packageName == packageName && this.moduleName == moduleName && this.filePath == filePath
      ensures patterns == DomainPatterns(domainPatterns)
      ensures className.None? && methodName.None? && imports == map[] && usages == []
    {
      this.packageName := packageName;
      this.moduleName := moduleName;
      this.filePath := filePath;
      patterns := DomainPatterns(domainPatterns);
      className := None;
      methodName := None;
      imports := map[];
      usages := [];
    }

    function Here(): Scope
      reads this`methodName
    {
      Scope(filePath, moduleName, methodName.Some?)
    }

    /** The compilation unit's imports, recorded in order. */
    method RecordImports(decls: seq<Import>)
      modifies this
      ensures imports == ImportsInto(old(imports), decls)
      ensures usages == old(usages) && className == old(className) && methodName == old(methodName)
    {
      ghost var start := imports;
      for i := 0 to |decls|
        invariant imports == ImportsInto(start, decls[..i])
        invariant usages == old(usages) && className == old(className) && methodName == old(methodName)
      {
        assert decls[..i + 1][..i] == decls[..i];
        var imp := decls[i];
        if Recorded(imp) {
          imports := imports[ImportKey(imp.name) := imp.name];
        }
      }
      assert decls[..|decls|] == decls;
    }

    /** Entering a class: its name becomes current, the enclosing one is handed back. */
    method EnterClass(name: string) returns (previous: Option<string>)
      modifies this
      ensures previous == old(className) && className == Some(name)
      ensures methodName == old(methodName) && imports == old(imports) && usages == old(usages)
    {
      previous := className;
      className := Some(name);
    }

    /** Leaving a class: the enclosing class is current again. */
    method LeaveClass(previous: Option<string>)
      modifies this
      ensures className == previous
      ensures methodName == old(methodName) && imports == old(imports) && usages == old(usages)
    {
      className := previous;
    }

    /** Entering a method (or, with the name "<init>", a constructor). */
    method EnterMethod(name: string) returns (previous: Option<string>)
      modifies this
      ensures previous == old(methodName) && methodName == Some(name)
      ensures className == old(className) && imports == old(imports) && usages == old(usages)
    {
      previous := methodName;
      methodName := Some(name);
    }

    method LeaveMethod(previous: Option<string>)
      modifies this
      ensures methodName == previous
      ensures className == old(className) && imports == old(imports) && usages == old(usages)
    {
      methodName := previous;
    }

    /**
     * The `extends` or `implements` clause of the current class: one usage
     * per supertype, and none at all when the class is outside the domain.
     */
    method RecordSupertypes(usageType: UsageType, line: int, parents: seq<Supertype>)
      modifies this
      ensures var classFqn := ClassFqn(packageName, className);
        usages == old(usages) + (if MatchesDomain(Some(classFqn), patterns)
                                 then SupertypeUsages(Here(), usageType, classFqn, line, parents) else [])
      ensures className == old(className) && methodName == old(methodName) && imports == old(imports)
    {
      var classFqn := ClassFqn(packageName, className);
      if MatchesDomain(Some(classFqn), patterns) {
        for i := 0 to |parents|
          invariant usages == old(usages) + SupertypeUsages(Here(), usageType, classFqn, line, parents[..i])
          invariant className == old(className) && methodName == old(methodName) && imports == old(imports)
        {
          SupertypeUsagesSnoc(Here(), usageType, classFqn, line, parents, i);
          var p := parents[i];
          usages := usages + [CreateUsage(Here(), usageType, classFqn, p.fqn, line, p.decl)];
        }
        assert parents[..|parents|] == parents;
      }
    }

    /** The name of the member being declared: the method, or the constructor. */
    function MemberFqn(isConstructor: bool): string
      reads this`className, this`methodName
    {
      if isConstructor then ConstructorFqn(packageName, className) else MethodFqn(packageName, className, methodName)
    }

    /** A method's or constructor's own `java_declaration` usage, from its class. */
    method RecordDeclaration(line: int, isConstructor: bool)
      modifies this
      ensures usages == old(usages) + [CreateUsage(Here(), Declaration, ClassFqn(packageName, className),
                                                   MemberFqn(isConstructor), line, None)]
      ensures className == old(className) && methodName == old(methodName) && imports == old(imports)
    {
      usages := usages + [CreateUsage(Here(), Declaration, ClassFqn(packageName, className),
                                      MemberFqn(isConstructor), line, None)];
    }

    /** A resolved parameter type: a usage and its inverse when it or a generic argument is in the domain. */
    method RecordParameter(typeFqn: string, line: int, decl: Option<Location>, isConstructor: bool)
      modifies this
      ensures usages == old(usages)
        + (if MatchesOrGenerics(typeFqn, patterns)
           then WithInverse(CreateUsage(Here(), Parameter, MemberFqn(isConstructor), typeFqn, line, decl), ParameterOf)
           else [])
      ensures className == old(className) && methodName == old(methodName) && imports == old(imports)
    {
      if MatchesOrGenerics(typeFqn, patterns) {
        var forward := CreateUsage(Here(), Parameter, MemberFqn(isConstructor), typeFqn, line, decl);
        usages := usages + [forward, Bidirectional(forward, ParameterOf)];
      }
    }

    /** A parameter type that does not resolve: the import map or the package name stands in, without generics. */
    method RecordParameterFallback(typeName: string, line: int, isConstructor: bool)
      requires typeName != ""
      requires packageName.Some?
      modifies this
      ensures var fqn := FallbackFqn(imports, typeName, packageName.value);
        usages == old(usages)
          + (if MatchesDomain(fqn, patterns)
             then WithInverse(CreateUsage(Here(), Parameter, MemberFqn(isConstructor), fqn.value, line, None), ParameterOf)
             else [])
      ensures className == old(className) && methodName == old(methodName) && imports == old(imports)
    {
      var fqn := FallbackFqn(imports, typeName, packageName.value);
      if MatchesDomain(fqn, patterns) {
        var forward := CreateUsage(Here(), Parameter, MemberFqn(isConstructor), fqn.value, line, None);
        usages := usages + [forward, Bidirectional(forward, ParameterOf)];
      }
    }

    /** A method's resolved return type: one usage when it or a generic argument is in the domain. */
    method RecordReturnType(typeFqn: string, line: int, decl: Option<Location>)
      modifies this
      ensures usages == old(usages)
        + (if MatchesOrGenerics(typeFqn, patterns)
           then [CreateUsage(Here(), ReturnType, MethodFqn(packageName, className, methodName), typeFqn, line, decl)]
           else [])
      ensures className == old(className) && methodName == old(methodName) && imports == old(imports)
    {
      if MatchesOrGenerics(typeFqn, patterns) {
        usages := usages + [CreateUsage(Here(), ReturnType, MethodFqn(packageName, className, methodName), typeFqn, line, decl)];
      }
    }

    /** An `@Inject` field: one usage per declared variable when its type is in the domain. */
    method RecordFieldInjection(injected: bool, typeFqn: string, variables: nat, line: int)
      modifies this
      ensures var u := CreateUsage(Here(), FieldInjection, ClassFqn(packageName, className), typeFqn, line, None);
        usages == old(usages) + (if injected && MatchesDomain(Some(typeFqn), patterns) then Repeat(u, variables) else [])
      ensures className == old(className) && methodName == old(methodName) && imports == old(imports)
    {
      if injected {
        var u := CreateUsage(Here(), FieldInjection, ClassFqn(packageName, className), typeFqn, line, None);
        var inDomain := MatchesDomain(Some(typeFqn), patterns);
        for i := 0 to variables
          invariant usages == old(usages) + (if inDomain then Repeat(u, i) else [])
          invariant className == old(className) && methodName == old(methodName) && imports == old(imports)
        {
          if inDomain {
            usages := usages + [u];
          }
        }
      }
    }

    /** A resolved method call: a usage and its inverse when the declaring type is in the domain. */
    method RecordMethodCall(declaringType: string, calleeFqn: string, line: int, decl: Location)
      modifies this
      ensures usages == old(usages)
        + (if MatchesDomain(Some(declaringType), patterns)
           then WithInverse(CreateUsage(Here(), MethodCall, SourceFqn(packageName, className, methodName), calleeFqn, line, Some(decl)), MethodCalledBy)
           else [])
      ensures className == old(className) && methodName == old(methodName) && imports == old(imports)
    {
      if MatchesDomain(Some(declaringType), patterns) {
        var forward := CreateUsage(Here(), MethodCall, SourceFqn(packageName, className, methodName), calleeFqn, line, Some(decl));
        usages := usages + [forward, Bidirectional(forward, MethodCalledBy)];
      }
    }

    /** A constructor call `new T(...)`: a usage and its inverse when `T` is in the domain. */
    method RecordConstructorCall(typeFqn: string, line: int, decl: Option<Location>)
      modifies this
      ensures usages == old(usages)
        + (if MatchesDomain(Some(typeFqn), patterns)
           then WithInverse(CreateUsage(Here(), ConstructorCall, SourceFqn(packageName, className, methodName), typeFqn, line, decl), ConstructorCalledBy)
           else [])
      ensures className == old(className) && methodName == old(methodName) && imports == old(imports)
    {
      if MatchesDomain(Some(typeFqn), patterns) {
        var forward := CreateUsage(Here(), ConstructorCall, SourceFqn(packageName, className, methodName), typeFqn, line, decl);
        usages := usages + [forward, Bidirectional(forward, ConstructorCalledBy)];
      }
    }
  }
}
