/**
 * The TypeScript/React extractor's decision rules: unquoting a string
 * literal and the filter that keeps the ones that may name an action, a
 * view or a Java class; the context a kept literal is found in; the names
 * counted as React components and hooks; and the pass-through of package
 * imports when module paths are resolved.
 */
module TypeScript {
  import opened Common
  import opened StringUtil

  /** A syntax-tree node: its grammar type, its source text and its children in order. */
  datatype Node = Node(kind: string, text: string, children: seq<Node>)

  // ---------------------------------------------------------------------
  // String literals

  /** Python's `t[1:-1]`: empty for a text of one character. */
  function Inner(t: string): string {
    if |t| >= 2 then t[1..|t| - 1] else ""
  }

  /** One matching outer pair of `"`, `'` or a backtick is removed; any other text is kept as it is. */
  function Unquote(t: string): string {
    if StartsWith(t, "\"") && EndsWith(t, "\"") then Inner(t)
    else if StartsWith(t, "'") && EndsWith(t, "'") then Inner(t)
    else if StartsWith(t, "`") && EndsWith(t, "`") then Inner(t)
    else t
  }

  predicate IsQuote(c: char) {
    c == '"' || c == '\'' || c == '`'
  }

  /** Unquoting undoes quoting with any of the three quote characters. */
  lemma UnquoteQuoted(q: char, x: string)
    requires IsQuote(q)
    ensures Unquote([q] + x + [q]) == x
  {
    var t := [q] + x + [q];
    assert t[1..|t| - 1] == x;
    assert t[|t| - 1..] == [q];
  }

  /**
   * The text changes exactly when it starts and ends with the same quote
   * character; a lone quote character unquotes to the empty string.
   */
  lemma {:induction false} UnquoteChanges(t: string)
    ensures Unquote(t) != t <==> |t| >= 1 && IsQuote(t[0]) && t[|t| - 1] == t[0]
    ensures |t| == 1 && IsQuote(t[0]) ==> Unquote(t) == ""
  {
    QuoteEnds(t, '"');
    QuoteEnds(t, '\'');
    QuoteEnds(t, '`');
    assert "\"" == ['"'] && "'" == ['\''] && "`" == ['`'];
    if |t| >= 1 && IsQuote(t[0]) && t[|t| - 1] == t[0] {
      assert |Unquote(t)| < |t|;
    }
  }

  /** A text starts, or ends, with the one-character string `[c]` exactly when its first, or last, character is `c`. */
  lemma {:induction false} QuoteEnds(t: string, c: char)
    ensures StartsWith(t, [c]) <==> |t| >= 1 && t[0] == c
    ensures EndsWith(t, [c]) <==> |t| >= 1 && t[|t| - 1] == c
  {
    if |t| >= 1 {
      assert t[|t| - 1..] == [t[|t| - 1]];
    }
  }

  /** The patterns that make a literal worth keeping. */
  predicate MayReference(v: string) {
    '.' in v || StartsWith(v, "ws/") || Contains(v, "Controller")
    || Contains(AsciiLower(v), "action") || Contains(AsciiLower(v), "view")
  }

  /** The interest filter: 2 to 200 characters, not blank, and one of the patterns. */
  predicate Interesting(v: string) {
    |v| >= 2 && PyStrip(v) != "" && |v| <= 200 && MayReference(v)
  }

  /** The value recorded for a string node: its unquoted text, when that passes the filter. */
  function LiteralValue(text: string): (r: Option<string>)
    ensures r.Some? ==> r.value == Unquote(text) && 2 <= |r.value| <= 200 && MayReference(r.value)
    ensures r.None? <==> !Interesting(Unquote(text))
  {
    var v := Unquote(text);
    if Interesting(v) then Some(v) else None
  }

  /**
   * The blank test never changes the outcome: every pattern puts a
   * non-space character in the literal, so a literal is kept exactly when
   * its length is between 2 and 200 and it matches a pattern.
   */
  lemma BlankTestRedundant(v: string)
    ensures Interesting(v) <==> 2 <= |v| <= 200 && MayReference(v)
  {
    if MayReference(v) {
      var i := NonSpaceAt(v);
      assert !PySpace(v[i]);
    }
  }

  /** An index of `v` holding a character that is not white space, for a literal that matches a pattern. */
  lemma {:induction false} NonSpaceAt(v: string) returns (i: int)
    requires MayReference(v)
    ensures 0 <= i < |v| && !PySpace(v[i])
  {
    if '.' in v {
      i :| 0 <= i < |v| && v[i] == '.';
    } else if StartsWith(v, "ws/") {
      i := 0;
      assert v[0] == "ws/"[0];
    } else if Contains(v, "Controller") {
      i := IndexOf(v, "Controller");
      ContainsAtHead(v, "Controller", i);
    } else {
      i := LowerPatternAt(v);
    }
  }

  /** Where `t` occurs, the text holds `t`'s first character. */
  lemma ContainsAtHead(s: string, t: string, i: int)
    requires ContainsAt(s, t, i) && |t| > 0
    ensures 0 <= i < |s| && s[i] == t[0]
  {
    assert s[i..i + |t|][0] == s[i];
  }

  /** An occurrence of "action" or "view" in the lower-cased text sits on a letter of the text itself. */
  lemma LowerPatternAt(v: string) returns (k: int)
    requires Contains(AsciiLower(v), "action") || Contains(AsciiLower(v), "view")
    ensures 0 <= k < |v| && !PySpace(v[k])
  {
    var lower := AsciiLower(v);
    if Contains(lower, "action") {
      k := IndexOf(lower, "action");
      ContainsAtHead(lower, "action", k);
    } else {
      k := IndexOf(lower, "view");
      ContainsAtHead(lower, "view", k);
    }
    assert IsAsciiUpper(v[k]) || lower[k] == v[k];
  }

  /** A dotted name (a Java class or an Axelor action) of suitable length is always kept. */
  lemma DottedNameKept(v: string)
    requires 2 <= |v| <= 200 && '.' in v
    ensures Interesting(v)
  {
    BlankTestRedundant(v);
  }

  // ---------------------------------------------------------------------
  // The context of a literal

  /** The text of the first child of the given kind. */
  function FirstOfKind(children: seq<Node>, kind: string): Option<string>
    decreases |children|
  {
    if |children| == 0 then None
    else if children[0].kind == kind then Some(children[0].text)
    else FirstOfKind(children[1..], kind)
  }

  lemma {:induction false} FirstOfKindSpec(children: seq<Node>, kind: string)
    ensures FirstOfKind(children, kind).None? <==> forall i :: 0 <= i < |children| ==> children[i].kind != kind
    ensures FirstOfKind(children, kind).Some? ==>
              exists i :: 0 <= i < |children| && children[i].kind == kind && children[i].text == FirstOfKind(children, kind).value
                          && forall j :: 0 <= j < i ==> children[j].kind != kind
    decreases |children|
  {
    if |children| > 0 && children[0].kind != kind {
      var rest := children[1..];
      FirstOfKindSpec(rest, kind);
      if FirstOfKind(rest, kind).Some? {
        var i :| 0 <= i < |rest| && rest[i].kind == kind && rest[i].text == FirstOfKind(rest, kind).value
                 && forall j :: 0 <= j < i ==> rest[j].kind != kind;
        assert children[i + 1] == rest[i];
        forall j | 0 <= j < i + 1 ensures children[j].kind != kind {
          if j > 0 {
            assert children[j] == rest[j - 1];
          }
        }
      } else {
        forall i | 0 <= i < |children| ensures children[i].kind != kind {
          if i > 0 {
            assert children[i] == rest[i - 1];
          }
        }
      }
    }
  }

  /** The search loop over a node's children that stops at the first child of the kind. */
  method FindFirst(children: seq<Node>, kind: string) returns (r: Option<string>)
    ensures r == FirstOfKind(children, kind)
  {
    var i := 0;
    while i < |children|
      invariant 0 <= i <= |children|
      invariant FirstOfKind(children, kind) == FirstOfKind(children[i..], kind)
    {
      if children[i].kind == kind {
        return Some(children[i].text);
      }
      assert children[i..][1..] == children[i + 1..];
      i := i + 1;
    }
    return None;
  }

  /** The parts a call expression's children contribute so far, newest first, and whether an identifier ended the scan. */
  datatype CallScan = CallScan(parts: seq<string>, stopped: bool)

  /** The part a member expression contributes: its first property identifier. */
  function MemberPart(c: Node): seq<string> {
    match FirstOfKind(c.children, "property_identifier")
    case None => []
    case Some(t) => ["call:" + t]
  }

  /**
   * One child of a call expression: an identifier adds its name and ends
   * the scan; a member expression adds its property and the scan goes on.
   */
  function CallStep(s: CallScan, c: Node): CallScan {
    if s.stopped then s
    else if c.kind == "identifier" then CallScan(["call:" + c.text] + s.parts, true)
    else if c.kind == "member_expression" then CallScan(MemberPart(c) + s.parts, false)
    else s
  }

  function ScanCall(children: seq<Node>): CallScan
    decreases |children|
  {
    if |children| == 0 then CallScan([], false)
    else CallStep(ScanCall(children[..|children| - 1]), children[|children| - 1])
  }

  lemma {:induction false} ScanCallStopped(children: seq<Node>, n: nat)
    requires n <= |children| && ScanCall(children[..n]).stopped
    ensures ScanCall(children) == ScanCall(children[..n])
    decreases |children|
  {
    if n < |children| {
      var init := children[..|children| - 1];
      assert init[..n] == children[..n];
      ScanCallStopped(init, n);
    } else {
      assert children[..n] == children;
    }
  }

  /** The parts of a call expression, as the loop over its children inserts them. */
  method CallContext(children: seq<Node>) returns (parts: seq<string>)
    ensures parts == ScanCall(children).parts
  {
    parts := [];
    for i := 0 to |children|
      invariant ScanCall(children[..i]) == CallScan(parts, false)
    {
      assert children[..i + 1][..i] == children[..i];
      var child := children[i];
      if child.kind == "identifier" {
        parts := ["call:" + child.text] + parts;
        ScanCallStopped(children, i + 1);
        return;
      } else if child.kind == "member_expression" {
        var p := FindFirst(child.children, "property_identifier");
        if p.Some? {
          parts := ["call:" + p.value] + parts;
        }
      }
    }
    assert children[..|children|] == children;
  }

  /** A call whose callee is a plain identifier contributes exactly "call:name". */
  lemma CallOfIdentifier(callee: Node, arguments: Node)
    requires callee.kind == "identifier" && arguments.kind == "arguments"
    ensures ScanCall([callee, arguments]).parts == ["call:" + callee.text]
  {
    var s := [callee, arguments];
    assert s[..1] == [callee];
    assert [callee][..0] == [];
    assert ScanCall([callee]) == CallScan(["call:" + callee.text], true);
    assert ScanCall(s) == CallStep(ScanCall(s[..1]), arguments);
  }

  /** A call whose callee is `obj.name(...)` contributes "call:name". */
  lemma CallOfMember(callee: Node, arguments: Node)
    requires callee.kind == "member_expression" && arguments.kind == "arguments"
    requires FirstOfKind(callee.children, "property_identifier").Some?
    ensures ScanCall([callee, arguments]).parts == ["call:" + FirstOfKind(callee.children, "property_identifier").value]
  {
    var s := [callee, arguments];
    assert s[..1] == [callee];
    assert [callee][..0] == [];
    assert ScanCall([callee]) == CallScan(MemberPart(callee), false);
    assert ScanCall(s) == CallStep(ScanCall(s[..1]), arguments);
  }

  /** The parts a property assignment contributes: its first property identifier. */
  function PropertyPart(children: seq<Node>): seq<string> {
    match FirstOfKind(children, "property_identifier")
    case None => []
    case Some(t) => ["prop:" + t]
  }

  /**
   * The walk up the parent chain `anc` (nearest first) while fewer than
   * three parts are collected: assignments and declarators add a part and
   * go on, a call expression or a property assignment adds its parts and
   * ends the walk, any other node is passed. Parts are inserted in front.
   */
  function Walk(anc: seq<Node>, parts: seq<string>): seq<string>
    decreases |anc|
  {
    if |anc| == 0 || |parts| >= 3 then parts
    else
      var c := anc[0];
      if c.kind == "call_expression" then ScanCall(c.children).parts + parts
      else if c.kind == "assignment_expression" then Walk(anc[1..], ["assignment"] + parts)
      else if c.kind == "variable_declarator" then Walk(anc[1..], ["variable"] + parts)
      else if c.kind == "property_assignment" then PropertyPart(c.children) + parts
      else Walk(anc[1..], parts)
  }

  /** `get_string_context`: the parts joined by '.', or nothing when there are none. */
  function StringContext(anc: seq<Node>): Option<string> {
    var parts := Walk(anc, []);
    if |parts| == 0 then None else Some(Join(parts, "."))
  }

  method GetStringContext(anc: seq<Node>) returns (r: Option<string>)
    ensures r == StringContext(anc)
  {
    var parts: seq<string> := [];
    var k := 0;
    while k < |anc| && |parts| < 3
      invariant 0 <= k <= |anc|
      invariant Walk(anc, []) == Walk(anc[k..], parts)
      decreases |anc| - k
    {
      var current := anc[k];
      assert anc[k..][0] == current;
      assert anc[k..][1..] == anc[k + 1..];
      if current.kind == "call_expression" {
        var found := CallContext(current.children);
        parts := found + parts;
        assert parts == Walk(anc, []);
        break;
      } else if current.kind == "assignment_expression" {
        parts := ["assignment"] + parts;
      } else if current.kind == "variable_declarator" {
        parts := ["variable"] + parts;
      } else if current.kind == "property_assignment" {
        var p := FindFirst(current.children, "property_identifier");
        if p.Some? {
          parts := ["prop:" + p.value] + parts;
        }
        assert parts == Walk(anc, []);
        break;
      }
      k := k + 1;
    }
    assert parts == Walk(anc, []);
    r := if |parts| == 0 then None else Some(Join(parts, "."));
  }

  /** A context part names an assignment, a declarator, a called function or a property. */
  predicate PartShape(p: string) {
    p == "assignment" || p == "variable" || StartsWith(p, "call:") || StartsWith(p, "prop:")
  }

  lemma {:induction false} ScanCallShape(children: seq<Node>)
    ensures forall i :: 0 <= i < |ScanCall(children).parts| ==> StartsWith(ScanCall(children).parts[i], "call:")
    decreases |children|
  {
    if |children| > 0 {
      ScanCallShape(children[..|children| - 1]);
    }
  }

  /**
   * The walk only inserts in front: the parts collected before stay at the
   * end, in order, so the nearest node's part comes last. Every part
   * inserted has one of the four shapes.
   */
  lemma {:induction false} WalkInsertsInFront(anc: seq<Node>, parts: seq<string>)
    ensures |Walk(anc, parts)| >= |parts|
    ensures Walk(anc, parts)[|Walk(anc, parts)| - |parts|..] == parts
    ensures forall i :: 0 <= i < |Walk(anc, parts)| - |parts| ==> PartShape(Walk(anc, parts)[i])
    decreases |anc|
  {
    if |anc| > 0 && |parts| < 3 {
      var c := anc[0];
      if c.kind == "call_expression" {
        ScanCallShape(c.children);
      } else if c.kind == "assignment_expression" {
        WalkInsertsInFront(anc[1..], ["assignment"] + parts);
      } else if c.kind == "variable_declarator" {
        WalkInsertsInFront(anc[1..], ["variable"] + parts);
      } else if c.kind == "property_assignment" {
      } else {
        WalkInsertsInFront(anc[1..], parts);
      }
    }
  }

  /** Every call expression on the chain contributes at most one part (the grammar gives a call one callee). */
  predicate SingleCallee(anc: seq<Node>) {
    forall i :: 0 <= i < |anc| && anc[i].kind == "call_expression" ==> |ScanCall(anc[i].children).parts| <= 1
  }

  /** With one callee per call, the walk never collects more than three parts. */
  lemma {:induction false} WalkBound(anc: seq<Node>, parts: seq<string>)
    requires |parts| <= 3 && SingleCallee(anc)
    ensures |Walk(anc, parts)| <= 3
    decreases |anc|
  {
    if |anc| > 0 && |parts| < 3 {
      var c := anc[0];
      assert SingleCallee(anc[1..]) by {
        forall i | 0 <= i < |anc[1..]| && anc[1..][i].kind == "call_expression"
          ensures |ScanCall(anc[1..][i].children).parts| <= 1
        {
          assert anc[1..][i] == anc[i + 1];
        }
      }
      if c.kind == "assignment_expression" {
        WalkBound(anc[1..], ["assignment"] + parts);
      } else if c.kind == "variable_declarator" {
        WalkBound(anc[1..], ["variable"] + parts);
      } else if c.kind != "call_expression" && c.kind != "property_assignment" {
        WalkBound(anc[1..], parts);
      }
    }
  }

  predicate Ends(n: Node) {
    n.kind == "call_expression" || n.kind == "property_assignment"
  }

  /** The walk ends at the first call expression or property assignment: the nodes above it never matter. */
  lemma {:induction false} WalkEndsAtFirst(anc: seq<Node>, parts: seq<string>, k: nat)
    requires k < |anc| && Ends(anc[k])
    requires forall i :: 0 <= i < k ==> !Ends(anc[i])
    ensures Walk(anc, parts) == Walk(anc[..k + 1], parts)
    decreases k
  {
    if k > 0 && |parts| < 3 {
      var c := anc[0];
      assert anc[..k + 1][1..] == anc[1..][..k];
      assert !Ends(c);
      forall i | 0 <= i < k - 1 ensures !Ends(anc[1..][i]) {
        assert anc[1..][i] == anc[i + 1];
      }
      var next := if c.kind == "assignment_expression" then ["assignment"] + parts
                  else if c.kind == "variable_declarator" then ["variable"] + parts
                  else parts;
      WalkEndsAtFirst(anc[1..], next, k - 1);
    }
  }

  // ---------------------------------------------------------------------
  // Components, hooks and module paths

  /** `name and name[0].isupper()`, for the ASCII letters. */
  predicate IsComponentName(name: string) {
    |name| > 0 && IsAsciiUpper(name[0])
  }

  predicate IsHookName(name: string) {
    StartsWith(name, "use")
  }

  /** No name is both a hook and a component, so a call and a JSX element are never confused. */
  lemma HookIsNotComponent(name: string)
    ensures IsHookName(name) ==> !IsComponentName(name)
    ensures IsComponentName(name) ==> !IsHookName(name)
  {
    if IsHookName(name) {
      assert name[0] == "use"[0];
    }
  }

  /** The identifier names of a node's children that satisfy `keep`. */
  function NamesOf(children: seq<Node>, keep: string -> bool): seq<string>
    decreases |children|
  {
    if |children| == 0 then []
    else NamesOf(children[..|children| - 1], keep)
         + (var c := children[|children| - 1]; if c.kind == "identifier" && keep(c.text) then [c.text] else [])
  }

  /** The components a node names itself: the capitalised identifiers of a JSX opening or self-closing element. */
  function OwnComponents(n: Node): seq<string> {
    if n.kind == "jsx_opening_element" || n.kind == "jsx_self_closing_element" then NamesOf(n.children, IsComponentName) else []
  }

  /** The hooks a node calls itself: the identifiers starting "use" of a call expression. */
  function OwnHooks(n: Node): seq<string> {
    if n.kind == "call_expression" then NamesOf(n.children, IsHookName) else []
  }

  lemma {:induction false} NamesOfKept(children: seq<Node>, keep: string -> bool)
    ensures forall i :: 0 <= i < |NamesOf(children, keep)| ==> keep(NamesOf(children, keep)[i])
    decreases |children|
  {
    if |children| > 0 {
      NamesOfKept(children[..|children| - 1], keep);
    }
  }

  /**
   * The callee names of the component pass (`own` is OwnComponents) or the
   * hook pass (OwnHooks): a node's own names, then its children's, in
   * document order.
   */
  function Visit(n: Node, own: Node -> seq<string>): seq<string>
    decreases n, 1
  {
    own(n) + VisitKids(n, own, |n.children|)
  }

  function VisitKids(n: Node, own: Node -> seq<string>, k: nat): seq<string>
    requires k <= |n.children|
    decreases n, 0, k
  {
    if k == 0 then [] else VisitKids(n, own, k - 1) + Visit(n.children[k - 1], own)
  }

  /** Every name a pass reports satisfies the pass's name rule. */
  lemma {:induction false} VisitKeeps(n: Node, own: Node -> seq<string>, keep: string -> bool)
    requires forall m: Node, i :: 0 <= i < |own(m)| ==> keep(own(m)[i])
    ensures forall i :: 0 <= i < |Visit(n, own)| ==> keep(Visit(n, own)[i])
    decreases n, 1
  {
    VisitKidsKeeps(n, own, keep, |n.children|);
  }

  lemma {:induction false} VisitKidsKeeps(n: Node, own: Node -> seq<string>, keep: string -> bool, k: nat)
    requires k <= |n.children|
    requires forall m: Node, i :: 0 <= i < |own(m)| ==> keep(own(m)[i])
    ensures forall i :: 0 <= i < |VisitKids(n, own, k)| ==> keep(VisitKids(n, own, k)[i])
    decreases n, 0, k
  {
    if k > 0 {
      VisitKidsKeeps(n, own, keep, k - 1);
      VisitKeeps(n.children[k - 1], own, keep);
    }
  }

  /** Every component reported is capitalised and every hook reported starts "use". */
  lemma ReportedNames(n: Node)
    ensures forall i :: 0 <= i < |Visit(n, OwnComponents)| ==> IsComponentName(Visit(n, OwnComponents)[i])
    ensures forall i :: 0 <= i < |Visit(n, OwnHooks)| ==> IsHookName(Visit(n, OwnHooks)[i])
  {
    forall m: Node, i | 0 <= i < |OwnComponents(m)| ensures IsComponentName(OwnComponents(m)[i]) {
      NamesOfKept(m.children, IsComponentName);
    }
    forall m: Node, i | 0 <= i < |OwnHooks(m)| ensures IsHookName(OwnHooks(m)[i]) {
      NamesOfKept(m.children, IsHookName);
    }
    VisitKeeps(n, OwnComponents, IsComponentName);
    VisitKeeps(n, OwnHooks, IsHookName);
  }

  /**
   * `_resolve_module_path`: "" for an empty path, a package import (not
   * starting with '.' or '/') unchanged, and a relative path resolved
   * against the current file by `resolveRelative` (the file system).
   */
  function ResolveModulePath(path: string, resolveRelative: string -> string): string {
    if |path| == 0 then ""
    else if !StartsWith(path, ".") && !StartsWith(path, "/") then path
    else resolveRelative(path)
  }

  /** Package imports pass through untouched whatever the file system holds, and resolving them again changes nothing. */
  lemma PackageImportsPassThrough(path: string, resolveRelative: string -> string)
    ensures ResolveModulePath("", resolveRelative) == ""
    ensures |path| > 0 && path[0] != '.' && path[0] != '/' ==>
              ResolveModulePath(path, resolveRelative) == path
              && ResolveModulePath(ResolveModulePath(path, resolveRelative), resolveRelative) == path
    ensures |path| > 0 && (path[0] == '.' || path[0] == '/') ==> ResolveModulePath(path, resolveRelative) == resolveRelative(path)
  {
    if |path| > 0 {
      assert StartsWith(path, ".") <==> path[0] == '.';
      assert StartsWith(path, "/") <==> path[0] == '/';
    }
  }
}
