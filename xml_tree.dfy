/**
 * The parsed XML tree the Axelor view extractor works on, its document-order
 * iteration with every element's ancestor chain (the extractor's parent
 * map), and the ancestor walks that find an element's enclosing view, its
 * enclosing action-view and the model a field belongs to.
 */
module XmlTree {
  import opened StringUtil
  import opened Common

  /** An element: its raw tag (possibly `{namespace}local`), attributes and children in order. */
  datatype Element = Element(tag: string, attrs: map<string, string>, children: seq<Element>)

  /** `element.get(k, '')`: a missing attribute reads as the empty string. */
  function Attr(e: Element, k: string): string {
    if k in e.attrs then e.attrs[k] else ""
  }

  /** The tag without its namespace: the text after the last `}`. */
  function LocalTag(e: Element): (r: string)
    ensures '}' !in r
    ensures '}' !in e.tag ==> r == e.tag
  {
    AfterLast(e.tag, '}')
  }

  /** The local tag is the last piece of the tag split at `}`, as the extractor computes it. */
  lemma LocalTagIsSplit(e: Element)
    ensures LocalTag(e) == if '}' in e.tag then LastPiece(e.tag, '}') else e.tag
  {
    AfterLastIsLastPiece(e.tag, '}');
  }

  const ViewTags: seq<string> := ["form", "grid", "calendar", "gantt", "chart", "custom", "kanban", "cards"]

  predicate IsView(e: Element) {
    ViewTagIndex(LocalTag(e), |ViewTags|) >= 0
  }

  /** The position of `t` among the first `k` view tags, searched from the end; -1 when it is not one of them. */
  function ViewTagIndex(t: string, k: nat): (r: int)
    requires k <= |ViewTags|
    ensures -1 <= r < k
  {
    if k == 0 then -1 else if t == ViewTags[k - 1] then k - 1 else ViewTagIndex(t, k - 1)
  }

  lemma {:induction false} ViewTagIndexSpec(t: string, k: nat)
    requires k <= |ViewTags|
    ensures ViewTagIndex(t, k) >= 0 <==> t in ViewTags[..k]
  {
    if k > 0 {
      ViewTagIndexSpec(t, k - 1);
      assert ViewTags[..k] == ViewTags[..k - 1] + [ViewTags[k - 1]];
    }
  }

  /** The view tags are the eight listed in the extractor. */
  lemma IsViewSpec(e: Element)
    ensures IsView(e) <==> LocalTag(e) in ViewTags
  {
    ViewTagIndexSpec(LocalTag(e), |ViewTags|);
    assert ViewTags[..|ViewTags|] == ViewTags;
  }

  predicate IsActionView(e: Element) {
    LocalTag(e) == "action-view"
  }

  predicate IsPanelRelated(e: Element) {
    LocalTag(e) == "panel-related"
  }

  /** The part an ancestor plays in the upward search for a field's model. */
  datatype SearchRole = PanelRole | EditorRole | ViewRole | Transparent

  /** A panel-related, an editor or a view ends the search; any other element is passed over. */
  function RoleOf(e: Element): SearchRole {
    var tag := LocalTag(e);
    if tag == "panel-related" then PanelRole
    else if tag == "editor" then EditorRole
    else if IsView(e) then ViewRole
    else Transparent
  }

  /** The elements that end the upward search for a field's model. */
  predicate StopsFieldSearch(e: Element) {
    RoleOf(e) != Transparent
  }

  // ---------------------------------------------------------------------
  // Iteration and parents
  // ---------------------------------------------------------------------

  /** An element reached by `root.iter()`, with its ancestors nearest first. */
  datatype Located = Located(elem: Element, ancestors: seq<Element>)

  /** `e.iter()`: `e` and then its descendants in document order; `anc` are `e`'s ancestors. */
  function Iter(e: Element, anc: seq<Element>): (r: seq<Located>)
    ensures |r| >= 1 && r[0] == Located(e, anc)
    decreases e, 1
  {
    [Located(e, anc)] + IterKids(e.children, [e] + anc)
  }

  /** The iteration of the subtrees `kids`, one after the other; `anc` are their common ancestors. */
  function IterKids(kids: seq<Element>, anc: seq<Element>): seq<Located>
    decreases kids, 0
  {
    if |kids| == 0 then []
    else IterKids(kids[..|kids| - 1], anc) + Iter(kids[|kids| - 1], anc)
  }

  /** What it means for `l` to lie in a subtree hung below `anc`: its chain ends in `anc`, its first link is its parent. */
  predicate BelowWithParent(l: Located, anc: seq<Element>) {
    |l.ancestors| > |anc|
    && l.ancestors[|l.ancestors| - |anc|..] == anc
    && l.elem in l.ancestors[0].children
  }

  /**
   * The ancestor chain recorded during iteration is the parent map: every
   * element met after the first has its nearest recorded ancestor as its
   * parent, and the chain ends in the ancestors of the iteration's start.
   */
  lemma {:induction false} IterParents(e: Element, anc: seq<Element>)
    ensures forall i :: 1 <= i < |Iter(e, anc)| ==> BelowWithParent(Iter(e, anc)[i], anc)
    decreases e, 1, 0
  {
    var kids := IterKids(e.children, [e] + anc);
    assert e.children[..|e.children|] == e.children;
    IterPrefixParents(e.children, |e.children|, [e] + anc, e);
    assert Iter(e, anc) == [Located(e, anc)] + kids;
    forall i | 1 <= i < |Iter(e, anc)| ensures BelowWithParent(Iter(e, anc)[i], anc) {
      var l := kids[i - 1];
      assert Iter(e, anc)[i] == l;
      assert ChainOk(l, [e] + anc);
      var n := |l.ancestors|;
      assert l.ancestors[n - |anc| - 1..] == [e] + anc;
      assert l.ancestors[n - |anc|..] == l.ancestors[n - |anc| - 1..][1..];
    }
  }

  lemma {:induction false} IterPrefixParents(kids: seq<Element>, n: nat, anc: seq<Element>, p: Element)
    requires |anc| >= 1 && anc[0] == p && n <= |kids| && kids == p.children
    ensures forall i :: 0 <= i < |IterKids(kids[..n], anc)| ==>
              ChainOk(IterKids(kids[..n], anc)[i], anc)
    decreases kids, 0, n
  {
    if n > 0 {
      var init := kids[..n][..n - 1];
      assert init == kids[..n - 1];
      var c := kids[n - 1];
      assert kids[..n][n - 1] == c;
      IterPrefixParents(kids, n - 1, anc, p);
      IterParents(c, anc);
      var left := IterKids(kids[..n - 1], anc);
      var right := Iter(c, anc);
      assert IterKids(kids[..n], anc) == left + right;
      forall i | 0 <= i < |left + right| ensures ChainOk((left + right)[i], anc) {
        if i < |left| {
          assert (left + right)[i] == left[i];
        } else if i == |left| {
          assert (left + right)[i] == Located(c, anc);
          assert c in p.children;
          assert anc[|anc| - |anc|..] == anc;
        } else {
          var l := right[i - |left|];
          assert (left + right)[i] == l;
          assert BelowWithParent(l, anc);
        }
      }
    }
  }

  /** An element below `anc[0]`: its chain ends in `anc`, and its first link is its parent. */
  predicate ChainOk(l: Located, anc: seq<Element>)
    requires |anc| >= 1
  {
    |l.ancestors| >= |anc|
    && l.ancestors[|l.ancestors| - |anc|..] == anc
    && l.elem in l.ancestors[0].children
  }

  /** Every element of the tree's iteration but the root has its recorded parent as its parent. */
  lemma RootIterParents(root: Element)
    ensures Iter(root, [])[0] == Located(root, [])
    ensures forall i :: 1 <= i < |Iter(root, [])| ==>
              |Iter(root, [])[i].ancestors| > 0 && Iter(root, [])[i].elem in Iter(root, [])[i].ancestors[0].children
  {
    IterParents(root, []);
  }

  // ---------------------------------------------------------------------
  // Ancestor walks
  // ---------------------------------------------------------------------

  /** The first position at or after `k` whose element satisfies `p`, or -1. */
  function FirstFrom(xs: seq<Element>, p: Element -> bool, k: nat): (r: int)
    requires k <= |xs|
    ensures r == -1 || k <= r < |xs|
    ensures r == -1 <==> forall m :: k <= m < |xs| ==> !p(xs[m])
    ensures r >= 0 ==> p(xs[r]) && forall m :: k <= m < r ==> !p(xs[m])
    decreases |xs| - k
  {
    if k == |xs| then -1 else if p(xs[k]) then k else FirstFrom(xs, p, k + 1)
  }

  /** Position `k` of `rest` is position `|pre| + k` of `pre + rest`. */
  lemma ShiftIndex<T>(pre: seq<T>, rest: seq<T>, k: nat)
    requires k < |rest|
    ensures (pre + rest)[|pre| + k] == rest[k]
  {
  }

  /** A position found by a forward search is the first one. */
  lemma FirstFromIs(xs: seq<Element>, p: Element -> bool, i: nat)
    requires i < |xs| && p(xs[i]) && forall m :: 0 <= m < i ==> !p(xs[m])
    ensures FirstFrom(xs, p, 0) == i
  {
  }

  /** A prefix in which nothing satisfies `p` only shifts the first match. */
  lemma FirstFromShift(pre: seq<Element>, rest: seq<Element>, p: Element -> bool)
    requires forall m :: 0 <= m < |pre| ==> !p(pre[m])
    ensures var k := FirstFrom(rest, p, 0);
      FirstFrom(pre + rest, p, 0) == if k < 0 then -1 else |pre| + k
  {
    var all := pre + rest;
    var k := FirstFrom(rest, p, 0);
    if k < 0 {
      forall m | 0 <= m < |all| ensures !p(all[m]) {
        if m >= |pre| {
          assert all[m] == rest[m - |pre|];
        }
      }
    } else {
      assert all[|pre| + k] == rest[k];
      forall m | 0 <= m < |pre| + k ensures !p(all[m]) {
        if m >= |pre| {
          assert all[m] == rest[m - |pre|];
        }
      }
      FirstFromIs(all, p, |pre| + k);
    }
  }

  /** An enclosing view (or action-view) as `(identifier, name, tag)`; all empty when there is none. */
  datatype ViewRef = ViewRef(id: string, name: string, tag: string)

  const NoView := ViewRef("", "", "")

  /** `_find_parent_view`: the nearest view ancestor, identified by its id, else its name. */
  function ParentView(anc: seq<Element>): (r: ViewRef)
    ensures r.tag != "" <==> exists m :: 0 <= m < |anc| && IsView(anc[m])
    ensures r.tag != "" ==>
      var k := FirstFrom(anc, IsView, 0);
      r.tag == LocalTag(anc[k]) && r.name == Attr(anc[k], "name")
      && r.id == (if Attr(anc[k], "id") != "" then Attr(anc[k], "id") else Attr(anc[k], "name"))
  {
    var k := FirstFrom(anc, IsView, 0);
    if k < 0 then NoView
    else
      var a := anc[k];
      IsViewSpec(a);
      ViewRef(if Attr(a, "id") != "" then Attr(a, "id") else Attr(a, "name"), Attr(a, "name"), LocalTag(a))
  }

  /** `_find_parent_action_view`: the nearest action-view ancestor, identified by its name, else its id. */
  function ParentActionView(anc: seq<Element>): (r: ViewRef)
    ensures r.tag != "" <==> exists m :: 0 <= m < |anc| && IsActionView(anc[m])
    ensures r.tag != "" ==>
      var k := FirstFrom(anc, IsActionView, 0);
      r.tag == "action-view" && r.name == Attr(anc[k], "name")
      && r.id == (if Attr(anc[k], "name") != "" then Attr(anc[k], "name") else Attr(anc[k], "id"))
  {
    var k := FirstFrom(anc, IsActionView, 0);
    if k < 0 then NoView
    else
      var a := anc[k];
      ViewRef(if Attr(a, "name") != "" then Attr(a, "name") else Attr(a, "id"), Attr(a, "name"), "action-view")
  }

  /** The walk up from an element: each step looks at the next ancestor, stopping at the first view. */
  method FindParentView(anc: seq<Element>) returns (r: ViewRef)
    ensures r == ParentView(anc)
  {
    var i := 0;
    while i < |anc|
      invariant 0 <= i <= |anc|
      invariant forall m :: 0 <= m < i ==> !IsView(anc[m])
    {
      var tag := LocalTag(anc[i]);
      IsViewSpec(anc[i]);
      if tag in ViewTags {
        var id := Attr(anc[i], "id");
        var name := Attr(anc[i], "name");
        FirstFromIs(anc, IsView, i);
        return ViewRef(if id != "" then id else name, name, tag);
      }
      i := i + 1;
    }
    return NoView;
  }

  method FindParentActionView(anc: seq<Element>) returns (r: ViewRef)
    ensures r == ParentActionView(anc)
  {
    var i := 0;
    while i < |anc|
      invariant 0 <= i <= |anc|
      invariant forall m :: 0 <= m < i ==> !IsActionView(anc[m])
    {
      if LocalTag(anc[i]) == "action-view" {
        var id := Attr(anc[i], "id");
        var name := Attr(anc[i], "name");
        FirstFromIs(anc, IsActionView, i);
        return ViewRef(if name != "" then name else id, name, "action-view");
      }
      i := i + 1;
    }
    return NoView;
  }

  // ---------------------------------------------------------------------
  // Field models
  // ---------------------------------------------------------------------

  /** A resolved model and how it was found; the model is empty when unresolved. */
  datatype Resolution = Resolution(model: string, source: string)

  /** A view found for a panel-related, and whether it was named by `grid-view` (else `form-view`). */
  datatype PanelView = PanelView(model: string, fromGrid: bool)

  /** A panel-related's view (grid-view first, then form-view), looked up in the global map, then the file's. */
  function PanelViewModel(a: Element, global: map<string, string>, local: map<string, string>): (r: Option<PanelView>)
    ensures r.Some? ==> r.value.fromGrid == (Attr(a, "grid-view") != "")
    ensures r.Some? ==>
      var v := if Attr(a, "grid-view") != "" then Attr(a, "grid-view") else Attr(a, "form-view");
      (v in global && r.value.model == global[v]) || (v !in global && v in local && r.value.model == local[v])
    ensures r.None? <==>
      var v := if Attr(a, "grid-view") != "" then Attr(a, "grid-view") else Attr(a, "form-view");
      v == "" || (v !in global && v !in local)
  {
    var grid := Attr(a, "grid-view");
    var v := if grid != "" then grid else Attr(a, "form-view");
    if v == "" then None
    else if v in global then Some(PanelView(global[v], grid != ""))
    else if v in local then Some(PanelView(local[v], grid != ""))
    else None
  }

  /** The element just above position `k` of an ancestor chain, when there is one. */
  function Parent(anc: seq<Element>, k: nat): (p: Option<Element>)
    requires k < |anc|
    ensures p.Some? <==> k + 1 < |anc|
    ensures p.Some? ==> p.value == anc[k + 1]
  {
    if k + 1 < |anc| then Some(anc[k + 1]) else None
  }

  /** What the first stopping ancestor `a`, with `parent` above it, resolves to. */
  function StopResult(a: Element, parent: Option<Element>, global: map<string, string>, local: map<string, string>)
    : Resolution
    requires StopsFieldSearch(a)
  {
    match RoleOf(a)
    case PanelRole =>
      if Attr(a, "target") != "" then Resolution(Attr(a, "target"), "panel_related")
      else (
        match PanelViewModel(a, global, local)
        case Some(pv) => Resolution(pv.model, if pv.fromGrid then "panel_related_grid_view" else "panel_related_form_view")
        case None => Resolution("", "unresolved_panel_related"))
    case EditorRole =>
      if parent.Some? && LocalTag(parent.value) == "field" && Attr(parent.value, "target") != "" then
        Resolution(Attr(parent.value, "target"), "editor_parent_field")
      else if parent.Some? && LocalTag(parent.value) == "field" && Attr(parent.value, "target-name") != "" then
        Resolution(Attr(parent.value, "target-name"), "editor_parent_field")
      else Resolution("", "unresolved_editor")
    case ViewRole =>
      if Attr(a, "model") != "" then Resolution(Attr(a, "model"), "view")
      else Resolution("", "unresolved")
  }

  /**
   * What a stopping ancestor decides: a panel-related's target, else the
   * view it names; an editor's parent field's target; a view's model.
   */
  lemma StopResultSpec(a: Element, parent: Option<Element>, global: map<string, string>, local: map<string, string>)
    requires StopsFieldSearch(a)
    ensures var r := StopResult(a, parent, global, local);
      && (RoleOf(a) == PanelRole && Attr(a, "target") != "" ==> r == Resolution(Attr(a, "target"), "panel_related"))
      && (RoleOf(a) == PanelRole ==>
            r.source in {"panel_related", "panel_related_grid_view", "panel_related_form_view", "unresolved_panel_related"})
      && (RoleOf(a) == EditorRole ==> r.source in {"editor_parent_field", "unresolved_editor"})
      && (RoleOf(a) == EditorRole && r.source == "editor_parent_field" ==>
            parent.Some? && LocalTag(parent.value) == "field" && r.model != "")
      && (RoleOf(a) == ViewRole ==>
            r == if Attr(a, "model") != "" then Resolution(Attr(a, "model"), "view") else Resolution("", "unresolved"))
  {
  }

  /**
   * `_resolve_field_model`: the field's own `target`, then its own
   * `target-name`, then what the nearest panel-related, editor or view
   * ancestor supplies; nothing above that ancestor's parent is looked at.
   */
  function FieldModel(e: Element, anc: seq<Element>, global: map<string, string>, local: map<string, string>)
    : (r: Resolution)
    ensures Attr(e, "target") != "" ==> r == Resolution(Attr(e, "target"), "field_target")
    ensures Attr(e, "target") == "" && Attr(e, "target-name") != "" ==>
              r == Resolution(Attr(e, "target-name"), "field_target_name")
    ensures Attr(e, "target") == "" && Attr(e, "target-name") == "" && (forall m :: 0 <= m < |anc| ==> !StopsFieldSearch(anc[m])) ==>
              r == Resolution("", "unresolved")
  {
    if Attr(e, "target") != "" then Resolution(Attr(e, "target"), "field_target")
    else if Attr(e, "target-name") != "" then Resolution(Attr(e, "target-name"), "field_target_name")
    else AncestorModel(anc, global, local)
  }

  /** What the nearest stopping ancestor decides, "unresolved" when there is none. */
  function AncestorModel(anc: seq<Element>, global: map<string, string>, local: map<string, string>): Resolution
  {
    var k := FirstFrom(anc, StopsFieldSearch, 0);
    if k < 0 then Resolution("", "unresolved") else StopResult(anc[k], Parent(anc, k), global, local)
  }

  /**
   * Ancestors that are neither panel-related, editor nor view are
   * transparent: putting any number of them between a field and the rest
   * of its chain does not change its model.
   */
  lemma FieldModelSkipsTransparent(e: Element, pre: seq<Element>, rest: seq<Element>,
                                   global: map<string, string>, local: map<string, string>)
    requires forall m :: 0 <= m < |pre| ==> !StopsFieldSearch(pre[m])
    ensures FieldModel(e, pre + rest, global, local) == FieldModel(e, rest, global, local)
  {
    AncestorModelSkips(pre, rest, global, local);
  }

  lemma AncestorModelSkips(pre: seq<Element>, rest: seq<Element>, global: map<string, string>, local: map<string, string>)
    requires forall m :: 0 <= m < |pre| ==> !StopsFieldSearch(pre[m])
    ensures AncestorModel(pre + rest, global, local) == AncestorModel(rest, global, local)
  {
    FirstFromShift(pre, rest, StopsFieldSearch);
    var k := FirstFrom(rest, StopsFieldSearch, 0);
    if k >= 0 {
      ParentShift(pre, rest, k);
    }
  }

  /** Putting `pre` in front of a chain moves each position and its parent by `|pre|`. */
  lemma ParentShift(pre: seq<Element>, rest: seq<Element>, k: nat)
    requires k < |rest|
    ensures (pre + rest)[|pre| + k] == rest[k] && Parent(pre + rest, |pre| + k) == Parent(rest, k)
  {
    ShiftIndex(pre, rest, k);
    if k + 1 < |rest| {
      ShiftIndex(pre, rest, k + 1);
    }
  }

  /** Ancestors above the stopping ancestor's parent never matter: cutting the chain there keeps the model. */
  lemma FieldModelIgnoresAbove(e: Element, anc: seq<Element>, k: nat,
                               global: map<string, string>, local: map<string, string>)
    requires k < |anc| && StopsFieldSearch(anc[k]) && forall m :: 0 <= m < k ==> !StopsFieldSearch(anc[m])
    ensures FieldModel(e, anc[..if k + 2 <= |anc| then k + 2 else |anc|], global, local) == FieldModel(e, anc, global, local)
  {
    var cut := anc[..if k + 2 <= |anc| then k + 2 else |anc|];
    FirstFromIs(anc, StopsFieldSearch, k);
    assert cut[k] == anc[k];
    FirstFromIs(cut, StopsFieldSearch, k);
    if k + 1 < |cut| {
      assert cut[k + 1] == anc[k + 1];
    }
    assert Parent(cut, k) == Parent(anc, k);
  }

  /** The walk of `_resolve_field_model`, one ancestor per step. */
  method ResolveFieldModel(e: Element, anc: seq<Element>, global: map<string, string>, local: map<string, string>)
      returns (r: Resolution)
    ensures r == FieldModel(e, anc, global, local)
  {
    if Attr(e, "target") != "" {
      return Resolution(Attr(e, "target"), "field_target");
    }
    if Attr(e, "target-name") != "" {
      return Resolution(Attr(e, "target-name"), "field_target_name");
    }
    var i := 0;
    while i < |anc|
      invariant 0 <= i <= |anc|
      invariant forall m :: 0 <= m < i ==> !StopsFieldSearch(anc[m])
    {
      if StopsFieldSearch(anc[i]) {
        FirstFromIs(anc, StopsFieldSearch, i);
        r := ResolveAtStop(anc[i], if i + 1 < |anc| then Some(anc[i + 1]) else None, global, local);
        return;
      }
      i := i + 1;
    }
    return Resolution("", "unresolved");
  }

  /** One step of the walk at a panel-related, editor or view ancestor, tag by tag as the walk checks them. */
  method ResolveAtStop(cur: Element, parent: Option<Element>, global: map<string, string>, local: map<string, string>)
      returns (r: Resolution)
    requires StopsFieldSearch(cur)
    ensures r == StopResult(cur, parent, global, local)
  {
    var tag := LocalTag(cur);
    if tag == "panel-related" {
      if Attr(cur, "target") != "" {
        return Resolution(Attr(cur, "target"), "panel_related");
      }
      var found := PanelViewModel(cur, global, local);
      if found.Some? {
        var src := if found.value.fromGrid then "panel_related_grid_view" else "panel_related_form_view";
        return Resolution(found.value.model, src);
      }
      return Resolution("", "unresolved_panel_related");
    }
    if tag == "editor" {
      if parent.Some? && LocalTag(parent.value) == "field" {
        if Attr(parent.value, "target") != "" {
          return Resolution(Attr(parent.value, "target"), "editor_parent_field");
        }
        if Attr(parent.value, "target-name") != "" {
          return Resolution(Attr(parent.value, "target-name"), "editor_parent_field");
        }
      }
      return Resolution("", "unresolved_editor");
    }
    if Attr(cur, "model") != "" {
      return Resolution(Attr(cur, "model"), "view");
    }
    return Resolution("", "unresolved");
  }

  /**
   * `_resolve_tail_model`: the field's own `target`, then `target-name`,
   * then the nearest panel-related at or above the field, through its view
   * in the global then the file's map; the search ends at that element.
   */
  function TailModel(e: Element, anc: seq<Element>, global: map<string, string>, local: map<string, string>)
    : (r: Resolution)
    ensures Attr(e, "target") != "" ==> r == Resolution(Attr(e, "target"), "tail_from_field_target")
    ensures Attr(e, "target") == "" && Attr(e, "target-name") != "" ==>
              r == Resolution(Attr(e, "target-name"), "tail_from_field_target_name")
    ensures Attr(e, "target") == "" && Attr(e, "target-name") == "" && r != Resolution("", "") ==>
              exists m :: 0 <= m < |[e] + anc| && IsPanelRelated(([e] + anc)[m])
  {
    if Attr(e, "target") != "" then Resolution(Attr(e, "target"), "tail_from_field_target")
    else if Attr(e, "target-name") != "" then Resolution(Attr(e, "target-name"), "tail_from_field_target_name")
    else
      var chain := [e] + anc;
      var k := FirstFrom(chain, IsPanelRelated, 0);
      if k < 0 then Resolution("", "")
      else
        match PanelViewModel(chain[k], global, local)
        case Some(pv) =>
          Resolution(pv.model, if pv.fromGrid then "tail_from_panel_related_grid_view" else "tail_from_panel_related_form_view")
        case None => Resolution("", "")
  }

  method ResolveTailModel(e: Element, anc: seq<Element>, global: map<string, string>, local: map<string, string>)
      returns (r: Resolution)
    ensures r == TailModel(e, anc, global, local)
  {
    if Attr(e, "target") != "" {
      return Resolution(Attr(e, "target"), "tail_from_field_target");
    }
    if Attr(e, "target-name") != "" {
      return Resolution(Attr(e, "target-name"), "tail_from_field_target_name");
    }
    var chain := [e] + anc;
    var i := 0;
    while i < |chain|
      invariant 0 <= i <= |chain|
      invariant forall m :: 0 <= m < i ==> !IsPanelRelated(chain[m])
    {
      if LocalTag(chain[i]) == "panel-related" {
        FirstFromIs(chain, IsPanelRelated, i);
        var found := PanelViewModel(chain[i], global, local);
        if found.Some? {
          var src := if found.value.fromGrid then "tail_from_panel_related_grid_view" else "tail_from_panel_related_form_view";
          return Resolution(found.value.model, src);
        }
        break;
      }
      i := i + 1;
    }
    return Resolution("", "");
  }

  // ---------------------------------------------------------------------
  // The file's view-to-model map
  // ---------------------------------------------------------------------

  /** Whether an iterated element names a view with a model. */
  predicate NamesViewModel(l: Located) {
    IsView(l.elem) && Attr(l.elem, "name") != "" && Attr(l.elem, "model") != ""
  }

  /** `_build_view_model_map` over the iteration `nodes`: a view's name to its model, the last one winning. */
  function ViewModelMap(nodes: seq<Located>): map<string, string>
    decreases |nodes|
  {
    if |nodes| == 0 then map[]
    else
      var l := nodes[|nodes| - 1];
      var m := ViewModelMap(nodes[..|nodes| - 1]);
      if NamesViewModel(l) then m[Attr(l.elem, "name") := Attr(l.elem, "model")] else m
  }

  /** Position `i` of the iteration is a view with a model named `v`. */
  predicate NamedViewAt(nodes: seq<Located>, i: int, v: string) {
    0 <= i < |nodes| && NamesViewModel(nodes[i]) && Attr(nodes[i].elem, "name") == v
  }

  /** A view name is mapped exactly when some named view with a model carries it. */
  lemma {:induction false} ViewModelMapKeys(nodes: seq<Located>, v: string)
    ensures v in ViewModelMap(nodes) <==> exists i :: NamedViewAt(nodes, i, v)
    decreases |nodes|
  {
    if |nodes| > 0 {
      var n := |nodes| - 1;
      var init := nodes[..n];
      ViewModelMapKeys(init, v);
      if v in ViewModelMap(nodes) {
        if NamedViewAt(nodes, n, v) {
        } else {
          var i :| NamedViewAt(init, i, v);
          assert nodes[i] == init[i];
          assert NamedViewAt(nodes, i, v);
        }
      }
      if exists i :: NamedViewAt(nodes, i, v) {
        var i :| NamedViewAt(nodes, i, v);
        if i < n {
          assert init[i] == nodes[i];
          assert NamedViewAt(init, i, v);
        }
      }
    }
  }

  /** The model recorded for a view name is the model of the last view with that name. */
  lemma {:induction false} ViewModelMapLast(nodes: seq<Located>, i: nat)
    requires i < |nodes| && NamesViewModel(nodes[i])
    requires forall j :: i < j ==> !NamedViewAt(nodes, j, Attr(nodes[i].elem, "name"))
    ensures var v := Attr(nodes[i].elem, "name");
      v in ViewModelMap(nodes) && ViewModelMap(nodes)[v] == Attr(nodes[i].elem, "model")
    decreases |nodes|
  {
    var n := |nodes| - 1;
    var init := nodes[..n];
    var v := Attr(nodes[i].elem, "name");
    if i < n {
      assert init[i] == nodes[i];
      forall j | i < j
        ensures !NamedViewAt(init, j, v)
      {
        if j < n {
          assert init[j] == nodes[j];
          assert !NamedViewAt(nodes, j, v);
        }
      }
      ViewModelMapLast(init, i);
      assert !NamedViewAt(nodes, n, v);
    }
  }

  method BuildViewModelMap(nodes: seq<Located>) returns (m: map<string, string>)
    ensures m == ViewModelMap(nodes)
  {
    m := map[];
    var i := 0;
    while i < |nodes|
      invariant 0 <= i <= |nodes|
      invariant m == ViewModelMap(nodes[..i])
    {
      var l := nodes[i];
      assert nodes[..i + 1][..i] == nodes[..i];
      IsViewSpec(l.elem);
      if LocalTag(l.elem) in ViewTags && Attr(l.elem, "name") != "" && Attr(l.elem, "model") != "" {
        m := m[Attr(l.elem, "name") := Attr(l.elem, "model")];
      }
      i := i + 1;
    }
    assert nodes[..i] == nodes;
  }
}
