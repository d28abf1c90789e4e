/**
 * The references the Axelor XML extractor derives from one view file (view
 * and action definitions, action-group membership, action-method calls,
 * event triggers, view uses and field-to-model references), and their
 * conversion into the entries that are stored. The extractor exists twice,
 * once with threads and once sequential; the rules are the same in both,
 * only the stored metadata differs by the routing key `source_file`.
 */
module XmlReferences {
  import opened StringUtil
  import opened Common
  import opened XmlTree

  /** One reference found in a file; the line is always 0, the extractor does not track lines. */
  datatype Reference = Reference(refType: string, refValue: string, filePath: string, line: int,
                                 moduleName: string, context: map<string, string>)

  /** What the extractor knows while it works on one file. */
  datatype FileContext = FileContext(file: string, moduleName: string, events: seq<string>,
                                     global: map<string, string>, local: map<string, string>)

  function Ref(ctx: FileContext, refType: string, refValue: string, context: map<string, string>): Reference {
    Reference(refType, refValue, ctx.file, 0, ctx.moduleName, context)
  }

  /** Python's `str(b)` for a boolean. */
  function BoolStr(b: bool): string {
    if b then "True" else "False"
  }

  // ---------------------------------------------------------------------
  // The module of a file
  // ---------------------------------------------------------------------

  /** The first position of `x` in `xs`, or -1 (`list.index`, guarded by `in`). */
  function IndexIn(xs: seq<string>, x: string): (r: int)
    ensures r == -1 <==> x !in xs
    ensures r >= 0 ==> r < |xs| && xs[r] == x && x !in xs[..r]
    decreases |xs|
  {
    if |xs| == 0 then -1
    else if xs[0] == x then 0
    else
      var k := IndexIn(xs[1..], x);
      assert xs == [xs[0]] + xs[1..];
      if k < 0 then -1
      else
        assert xs[..k + 1] == [xs[0]] + xs[1..][..k];
        k + 1
  }

  /** `_extract_module_from_path` on the components of a path. */
  function ModuleFromPath(parts: seq<string>): string {
    var i := IndexIn(parts, "modules");
    if 0 <= i && i + 1 < |parts| then parts[i + 1] else "unknown"
  }

  /** The component after the first "modules" is the module, whatever follows. */
  lemma ModuleAfterModules(pre: seq<string>, m: string, rest: seq<string>)
    requires "modules" !in pre
    ensures ModuleFromPath(pre + ["modules", m] + rest) == m
  {
    var parts := pre + ["modules", m] + rest;
    assert parts[|pre|] == "modules" && parts[|pre| + 1] == m;
    assert parts[..|pre|] == pre;
  }

  /** Without a "modules" component, or with it last, the module is "unknown". */
  lemma ModuleUnknown(parts: seq<string>)
    requires "modules" !in parts || ("modules" !in parts[..|parts| - 1] && parts[|parts| - 1] == "modules")
    ensures ModuleFromPath(parts) == "unknown"
  {
  }

  // ---------------------------------------------------------------------
  // View and action definitions
  // ---------------------------------------------------------------------

  function Elems(ls: seq<Located>): (r: seq<Element>)
    ensures |r| == |ls| && forall i :: 0 <= i < |ls| ==> r[i] == ls[i].elem
  {
    seq(|ls|, i requires 0 <= i < |ls| => ls[i].elem)
  }

  /** The strict descendants of `e` in document order, which `.//tag` searches. */
  function Descendants(e: Element): seq<Element> {
    Elems(Iter(e, [])[1..])
  }

  /** The elements of `es` whose raw tag is exactly `t`, in order. */
  function WithTag(es: seq<Element>, t: string): (r: seq<Element>)
    ensures forall x :: x in r <==> x in es && x.tag == t
    decreases |es|
  {
    if |es| == 0 then []
    else
      var init := WithTag(es[..|es| - 1], t);
      assert es == es[..|es| - 1] + [es[|es| - 1]];
      if es[|es| - 1].tag == t then init + [es[|es| - 1]] else init
  }

  const ExtendInNamespace := "{http://axelor.com/xml/ns/object-views}extend"

  /** The `<extend>` descendants: those in the object-views namespace, or, if there are none, the plain ones. */
  function Extends(e: Element): seq<Element> {
    var ns := WithTag(Descendants(e), ExtendInNamespace);
    if |ns| > 0 then ns else WithTag(Descendants(e), "extend")
  }

  /** The non-empty `target`s of the extends, in order. */
  function ExtendTargets(xs: seq<Element>): (r: seq<string>)
    ensures forall i :: 0 <= i < |r| ==> r[i] != ""
    decreases |xs|
  {
    if |xs| == 0 then []
    else
      var t := Attr(xs[|xs| - 1], "target");
      ExtendTargets(xs[..|xs| - 1]) + (if t != "" then [t] else [])
  }

  const ExtendOperations: seq<string> := ["insert", "replace", "remove", "attribute"]

  /** The operation tags among the children of one extend, in order. */
  function OperationsOf(kids: seq<Element>): (r: seq<string>)
    ensures forall i :: 0 <= i < |r| ==> r[i] in ExtendOperations
    decreases |kids|
  {
    if |kids| == 0 then []
    else
      var t := LocalTag(kids[|kids| - 1]);
      OperationsOf(kids[..|kids| - 1]) + (if t in ExtendOperations then [t] else [])
  }

  function ExtendOps(xs: seq<Element>): (r: seq<string>)
    ensures forall i :: 0 <= i < |r| ==> r[i] in ExtendOperations
    decreases |xs|
  {
    if |xs| == 0 then [] else ExtendOps(xs[..|xs| - 1]) + OperationsOf(xs[|xs| - 1].children)
  }

  function DefinitionContext(e: Element, ext: bool): (c: map<string, string>)
    ensures "view_id" in c && "is_extension" in c && "model" in c
    ensures c["view_id"] == (if Attr(e, "id") != "" then Attr(e, "id") else Attr(e, "name"))
    ensures c["is_extension"] == BoolStr(ext)
    ensures !ext ==> c.Keys == {"view_id", "is_extension", "model"}
  {
    var base := map["view_id" := (if Attr(e, "id") != "" then Attr(e, "id") else Attr(e, "name")),
                     "is_extension" := BoolStr(ext), "model" := Attr(e, "model")];
    if !ext then base
    else
      var xs := Extends(e);
      var targets := ExtendTargets(xs);
      var ops := ExtendOps(xs);
      var c1 := if |targets| > 0 then base["extend_targets" := Join(targets, "|")] else base;
      if |ops| > 0 then c1["extend_operations" := Join(ops, ",")] else c1
  }

  predicate IsDefinitionTag(tag: string) {
    tag in ViewTags || StartsWith(tag, "action-")
  }

  /**
   * `_extract_view_and_action_definitions` for one element: a named view or
   * action gives one reference to its name, typed `{tag}_extension` when
   * `extension="true"` and `{tag}_definition` otherwise.
   */
  function DefinitionRefs(ctx: FileContext, l: Located): (r: seq<Reference>)
    ensures |r| <= 1
    ensures |r| == 1 <==> IsDefinitionTag(LocalTag(l.elem)) && Attr(l.elem, "name") != ""
    ensures |r| == 1 ==>
      r[0].refValue == Attr(l.elem, "name")
      && r[0].refType == LocalTag(l.elem) + (if Attr(l.elem, "extension") == "true" then "_extension" else "_definition")
      && "view_id" in r[0].context
      && r[0].context["view_id"] == (if Attr(l.elem, "id") != "" then Attr(l.elem, "id") else Attr(l.elem, "name"))
  {
    var e := l.elem;
    var tag := LocalTag(e);
    var ext := Attr(e, "extension") == "true";
    if IsDefinitionTag(tag) && Attr(e, "name") != "" then
      [Ref(ctx, tag + (if ext then "_extension" else "_definition"), Attr(e, "name"), DefinitionContext(e, ext))]
    else []
  }

  // ---------------------------------------------------------------------
  // Action groups
  // ---------------------------------------------------------------------

  /** The names of the named direct `<action>` children, in order. */
  function ChildActions(kids: seq<Element>): (r: seq<string>)
    ensures |r| <= |kids|
    ensures forall i :: 0 <= i < |r| ==> r[i] != ""
    decreases |kids|
  {
    if |kids| == 0 then []
    else
      var c := kids[|kids| - 1];
      ChildActions(kids[..|kids| - 1]) + (if LocalTag(c) == "action" && Attr(c, "name") != "" then [Attr(c, "name")] else [])
  }

  function ContainsRef(ctx: FileContext, group: string, child: string, position: nat): Reference {
    Ref(ctx, "action_group_contains_action", child, map["parent_action" := group, "position" := NatToString(position)])
  }

  function ContainedByRef(ctx: FileContext, group: string, child: string, position: nat): Reference {
    Ref(ctx, "action_contained_by_group", group, map["child_action" := child, "position" := NatToString(position)])
  }

  /** The two membership references of the children from position `k` on. */
  function GroupPairs(ctx: FileContext, group: string, names: seq<string>, k: nat): seq<Reference>
    requires k <= |names|
    decreases |names| - k
  {
    if k == |names| then []
    else [ContainsRef(ctx, group, names[k], k), ContainedByRef(ctx, group, names[k], k)] + GroupPairs(ctx, group, names, k + 1)
  }

  lemma {:induction false} GroupPairsShape(ctx: FileContext, group: string, names: seq<string>, k: nat)
    requires k <= |names|
    ensures |GroupPairs(ctx, group, names, k)| == 2 * (|names| - k)
    ensures forall i :: k <= i < |names| ==>
              GroupPairs(ctx, group, names, k)[2 * (i - k)] == ContainsRef(ctx, group, names[i], i)
              && GroupPairs(ctx, group, names, k)[2 * (i - k) + 1] == ContainedByRef(ctx, group, names[i], i)
    decreases |names| - k
  {
    if k < |names| {
      GroupPairsShape(ctx, group, names, k + 1);
      var rest := GroupPairs(ctx, group, names, k + 1);
      var all := GroupPairs(ctx, group, names, k);
      assert all == [ContainsRef(ctx, group, names[k], k), ContainedByRef(ctx, group, names[k], k)] + rest;
      forall i | k < i < |names|
        ensures all[2 * (i - k)] == ContainsRef(ctx, group, names[i], i)
             && all[2 * (i - k) + 1] == ContainedByRef(ctx, group, names[i], i)
      {
        assert all[2 * (i - k)] == rest[2 * (i - (k + 1))];
        assert all[2 * (i - k) + 1] == rest[2 * (i - (k + 1)) + 1];
      }
    }
  }

  /** `_extract_action_groups` for one element. */
  function GroupRefs(ctx: FileContext, l: Located): seq<Reference> {
    var e := l.elem;
    var name := Attr(e, "name");
    if LocalTag(e) == "action-group" && name != "" then
      var names := ChildActions(e.children);
      [Ref(ctx, "action_group_definition", name,
           map["child_actions" := Join(names, ","), "child_count" := NatToString(|names|)])]
      + GroupPairs(ctx, name, names, 0)
    else []
  }

  /**
   * A named action-group with n named `<action>` children gives 1 + 2n
   * references: its definition, then for the i-th child a "contains"
   * reference to the child and a "contained by" reference to the group,
   * both carrying position i.
   */
  lemma GroupRefsShape(ctx: FileContext, l: Located)
    requires LocalTag(l.elem) == "action-group" && Attr(l.elem, "name") != ""
    ensures var names := ChildActions(l.elem.children);
      var r := GroupRefs(ctx, l);
      |r| == 1 + 2 * |names|
      && r[0].refType == "action_group_definition" && r[0].refValue == Attr(l.elem, "name")
      && forall i :: 0 <= i < |names| ==>
           r[1 + 2 * i] == ContainsRef(ctx, Attr(l.elem, "name"), names[i], i)
           && r[2 + 2 * i] == ContainedByRef(ctx, Attr(l.elem, "name"), names[i], i)
  {
    var names := ChildActions(l.elem.children);
    GroupPairsShape(ctx, Attr(l.elem, "name"), names, 0);
  }

  // ---------------------------------------------------------------------
  // Action methods
  // ---------------------------------------------------------------------

  /** The first element of `es` whose tag is `call`. */
  function FirstCall(es: seq<Element>): (r: Option<Element>)
    ensures r.Some? ==> r.value in es && LocalTag(r.value) == "call"
    ensures r.None? ==> forall i :: 0 <= i < |es| ==> LocalTag(es[i]) != "call"
    decreases |es|
  {
    if |es| == 0 then None
    else if LocalTag(es[0]) == "call" then Some(es[0])
    else
      var r := FirstCall(es[1..]);
      assert forall i :: 1 <= i < |es| ==> es[i] == es[1..][i - 1];
      r
  }

  /**
   * `_extract_action_methods` for one element: a named action-method with a
   * `<call>` gives its definition, and, when the call names a method, a
   * reference to that Java method.
   */
  function MethodRefs(ctx: FileContext, l: Located): (r: seq<Reference>)
    ensures |r| <= 2
    ensures |r| > 0 ==> LocalTag(l.elem) == "action-method" && Attr(l.elem, "name") != ""
                        && r[0].refType == "action_method_definition" && r[0].refValue == Attr(l.elem, "name")
    ensures |r| == 2 ==> r[1].refType == "xml_calls_java_method" && r[1].refValue != ""
  {
    var e := l.elem;
    var name := Attr(e, "name");
    if LocalTag(e) == "action-method" && name != "" then
      match FirstCall(Elems(Iter(e, [])))
      case None => []
      case Some(call) =>
        var cls := Attr(call, "class");
        var m := Attr(call, "method");
        [Ref(ctx, "action_method_definition", name,
             map["java_class" := cls, "java_method" := m,
                 "java_fqn" := (if cls != "" && m != "" then cls + "." + m else "")])]
        + (if m != "" then
             [Ref(ctx, "xml_calls_java_method", m, map["action_name" := name, "java_class" := cls, "java_fqn" := cls + "." + m])]
           else [])
    else []
  }

  // ---------------------------------------------------------------------
  // Event triggers
  // ---------------------------------------------------------------------

  /** The identifier of a trigger: by enclosing view and field, by field, or by tag. */
  function TriggerId(parentId: string, fieldName: string, tag: string, event: string): (r: string)
    ensures parentId != "" && fieldName != "" ==> r == parentId + ":" + fieldName + ":" + event
    ensures parentId == "" && fieldName != "" ==> r == fieldName + ":" + event
    ensures fieldName == "" ==> r == tag + ":" + event
  {
    if parentId != "" && fieldName != "" then parentId + ":" + fieldName + ":" + event
    else if fieldName != "" then fieldName + ":" + event
    else tag + ":" + event
  }

  /** The identifier of an inline group of comma-separated actions. */
  function InlineGroupId(parentId: string, fieldName: string, tag: string, event: string): (r: string)
    ensures StartsWith(r, "inline-group-")
  {
    var who := if fieldName != "" then fieldName else tag;
    if parentId != "" then "inline-group-" + parentId + "-" + who + "-" + event
    else "inline-group-" + who + "-" + event
  }

  /** `a.split(':')` when it gives exactly two parts: the class and the method. */
  function JavaCall(action: string): (r: Option<(string, string)>)
    ensures r.Some? ==> ':' in action && r.value.0 + ":" + r.value.1 == action
    ensures r.Some? ==> ':' !in r.value.0 && ':' !in r.value.1
  {
    var parts := Split(action, ':');
    if ':' in action && |parts| == 2 then
      JoinSplit(action, ':');
      assert Join(parts, [':']) == parts[0] + [':'] + Join(parts[1..], [':']);
      assert parts[1..] == [parts[1]];
      Some((parts[0], parts[1]))
    else None
  }

  /** Where an event attribute sits: name of the event, the element's tag and name, its enclosing view. */
  datatype EventSite = EventSite(event: string, tag: string, fieldName: string, parent: ViewRef)

  /** The references of the piece at `position` of an inline group `gid`; an empty piece gives none. */
  function PieceRefs(ctx: FileContext, site: EventSite, gid: string, action: string, position: nat): (r: seq<Reference>)
    ensures action == "" <==> |r| == 0
    ensures action != "" ==> |r| == (if JavaCall(action).Some? then 3 else 2)
    ensures action != "" ==> r[0].refType == "inline_group_contains_action" && r[0].refValue == action
                             && r[1].refType == "action_contained_by_inline_group" && r[1].refValue == gid
    ensures |r| == 3 ==> r[2].refType == "xml_calls_java_method" && r[2].refValue == JavaCall(action).value.1
  {
    if action == "" then []
    else
      var common := map["position" := NatToString(position), "event_type" := site.event,
                        "element_name" := site.fieldName, "parent_view_id" := site.parent.id];
      [Ref(ctx, "inline_group_contains_action", action, common["parent_group" := gid]),
       Ref(ctx, "action_contained_by_inline_group", gid, common["child_action" := action])]
      + match JavaCall(action)
        case Some(jc) =>
          [Ref(ctx, "xml_calls_java_method", jc.1,
               map["event_type" := site.event, "java_class" := jc.0, "java_fqn" := action,
                   "direct_call" := "true", "inline_group" := gid])]
        case None => []
  }

  function PiecesFrom(ctx: FileContext, site: EventSite, gid: string, actions: seq<string>, k: nat): seq<Reference>
    requires k <= |actions|
    decreases |actions| - k
  {
    if k == |actions| then [] else PieceRefs(ctx, site, gid, actions[k], k) + PiecesFrom(ctx, site, gid, actions, k + 1)
  }

  /** The pieces of a comma-separated event value, each stripped. */
  function InlineActions(value: string): (r: seq<string>)
    ensures |r| == |Split(value, ',')|
  {
    var parts := Split(value, ',');
    seq(|parts|, i requires 0 <= i < |parts| => PyStrip(parts[i]))
  }

  /** The references one event attribute of one element gives. */
  function EventRefsFor(ctx: FileContext, l: Located, event: string): (r: seq<Reference>)
    ensures Attr(l.elem, event) == "" ==> r == []
    ensures var value := Attr(l.elem, event);
      value != "" && ',' !in value && ':' !in value ==>
        var site := SiteOf(l, event);
        var trigger := TriggerId(site.parent.id, site.fieldName, site.tag, event);
        |r| == 2 && r[0].refType == "xml_trigger_calls_action" && r[0].refValue == value
        && r[1].refType == "xml_action_called_by_trigger" && r[1].refValue == trigger
    ensures var value := Attr(l.elem, event);
      ',' in value ==>
        var site := SiteOf(l, event);
        |r| >= 1 && r[0].refType == "inline_action_group"
        && r[0].refValue == InlineGroupId(site.parent.id, site.fieldName, site.tag, event)
  {
    var e := l.elem;
    var value := Attr(e, event);
    if value == "" then []
    else
      var site := SiteOf(l, event);
      var pv := site.parent;
      if ',' in value then
        var actions := InlineActions(value);
        var gid := InlineGroupId(pv.id, site.fieldName, site.tag, event);
        [Ref(ctx, "inline_action_group", gid,
             map["event_type" := event, "element_tag" := site.tag, "element_name" := site.fieldName,
                 "parent_view_id" := pv.id, "parent_view_name" := pv.name, "parent_view_tag" := pv.tag,
                 "child_actions" := Join(actions, ","), "child_count" := NatToString(|actions|),
                 "is_inline" := "true"])]
        + PiecesFrom(ctx, site, gid, actions, 0)
      else if ':' in value then
        match JavaCall(value)
        case Some(jc) =>
          [Ref(ctx, "xml_calls_java_method", jc.1,
               map["event_type" := event, "java_class" := jc.0, "java_fqn" := value, "direct_call" := "true"])]
        case None => []
      else
        var trigger := TriggerId(pv.id, site.fieldName, site.tag, event);
        var common := map["event_type" := event, "element_tag" := site.tag, "field_name" := site.fieldName,
                          "parent_view_id" := pv.id, "parent_view_name" := pv.name, "parent_view_tag" := pv.tag];
        [Ref(ctx, "xml_trigger_calls_action", value, common["trigger_identifier" := trigger]),
         Ref(ctx, "xml_action_called_by_trigger", trigger, common["action_name" := value])]
  }

  /** An element's name for triggers: its `field` attribute, else its `name`. */
  function SiteOf(l: Located, event: string): EventSite {
    var e := l.elem;
    EventSite(event, LocalTag(e), if Attr(e, "field") != "" then Attr(e, "field") else Attr(e, "name"), ParentView(l.ancestors))
  }

  /** `_extract_event_triggers` for one element: every event attribute in the configured order. */
  function EventRefs(ctx: FileContext, l: Located, events: seq<string>): seq<Reference>
    decreases |events|
  {
    if |events| == 0 then [] else EventRefs(ctx, l, events[..|events| - 1]) + EventRefsFor(ctx, l, events[|events| - 1])
  }

  // ---------------------------------------------------------------------
  // View references
  // ---------------------------------------------------------------------

  /** The attributes that name a view, with the view type each stands for. */
  const ViewAttributes: seq<(string, string)> :=
    [("form-view", "form"), ("grid-view", "grid"), ("calendar-view", "calendar"),
     ("chart-view", "chart"), ("gantt-view", "gantt"), ("custom-view", "custom")]

  /** The pair of references for one view-naming attribute of `l`. */
  function ViewAttrRefs(ctx: FileContext, l: Located, attr: string, viewType: string): (r: seq<Reference>)
    ensures Attr(l.elem, attr) == "" <==> r == []
    ensures r != [] ==> |r| == 2 && r[0].refType == "xml_element_uses_view" && r[0].refValue == Attr(l.elem, attr)
                        && r[1].refType == "xml_view_used_by_element"
                        && r[1].refValue == (if Attr(l.elem, "name") != "" then Attr(l.elem, "name")
                                             else LocalTag(l.elem) + "@" + ParentView(l.ancestors).id)
  {
    var e := l.elem;
    var viewName := Attr(e, attr);
    if viewName == "" then []
    else
      var pv := ParentView(l.ancestors);
      var name := Attr(e, "name");
      var tag := LocalTag(e);
      var common := map["element_tag" := tag, "parent_view_id" := pv.id, "parent_view_name" := pv.name,
                        "parent_view_tag" := pv.tag, "attribute" := attr, "view_type" := viewType];
      [Ref(ctx, "xml_element_uses_view", viewName, common["element_name" := name]),
       Ref(ctx, "xml_view_used_by_element", if name != "" then name else tag + "@" + pv.id, common["view_name" := viewName])]
  }

  function ViewAttrsFrom(ctx: FileContext, l: Located, k: nat): seq<Reference>
    requires k <= |ViewAttributes|
    decreases |ViewAttributes| - k
  {
    if k == |ViewAttributes| then []
    else ViewAttrRefs(ctx, l, ViewAttributes[k].0, ViewAttributes[k].1) + ViewAttrsFrom(ctx, l, k + 1)
  }

  /** A `<view type=… name=…>` inside an action-view: the pair linking the two. */
  function ViewElementRefs(ctx: FileContext, l: Located): (r: seq<Reference>)
    ensures r != [] <==> LocalTag(l.elem) == "view" && Attr(l.elem, "type") != "" && Attr(l.elem, "name") != ""
    ensures r != [] ==> |r| == 2 && r[0].refValue == Attr(l.elem, "name")
                        && r[1].refValue == ParentActionView(l.ancestors).id
  {
    var e := l.elem;
    var viewType := Attr(e, "type");
    var name := Attr(e, "name");
    if LocalTag(e) == "view" && viewType != "" && name != "" then
      var pav := ParentActionView(l.ancestors);
      [Ref(ctx, "xml_action_view_uses_view", name,
           map["parent_action_view" := pav.id, "parent_action_name" := pav.name, "view_type" := viewType]),
       Ref(ctx, "xml_view_used_by_action_view", pav.id,
           map["view_name" := name, "parent_action_name" := pav.name, "view_type" := viewType])]
    else []
  }

  /** `_extract_view_references` for one element. */
  function ViewRefs(ctx: FileContext, l: Located): seq<Reference> {
    ViewAttrsFrom(ctx, l, 0) + ViewElementRefs(ctx, l)
  }

  // ---------------------------------------------------------------------
  // Field references
  // ---------------------------------------------------------------------

  const FieldTags: seq<string> :=
    ["field", "column", "string", "integer", "decimal", "boolean", "date", "datetime", "many-to-one",
     "one-to-many", "many-to-many", "one-to-one", "binary", "panel-related"]

  /** A field's full name: `field` on a panel-related, `name` elsewhere. */
  function FullFieldName(e: Element): string {
    if LocalTag(e) == "panel-related" then Attr(e, "field") else Attr(e, "name")
  }

  /** The head of a dotted name: the text before its first dot. */
  function Head(full: string): (r: string)
    ensures '.' !in r
    ensures '.' !in full ==> r == full
  {
    var k := IndexOfChar(full, '.');
    if k < 0 then full else full[..k]
  }

  /** The rest after the first dot, empty without one. */
  function DottedPath(full: string): string {
    var k := IndexOfChar(full, '.');
    if k < 0 then "" else full[k + 1..]
  }

  /** The context both references of a field carry. */
  function FieldContext(e: Element, res: Resolution, pv: ViewRef): map<string, string> {
    map["field_tag" := LocalTag(e), "model_resolution" := res.source, "parent_view_id" := pv.id,
        "parent_view_name" := pv.name, "parent_view_tag" := pv.tag, "widget" := Attr(e, "widget"),
        "target" := Attr(e, "target"), "target_name" := Attr(e, "target-name")]
  }

  /** The dotted-field marks of a head or tail reference. */
  function Dotted(c: map<string, string>, full: string, mark: string): map<string, string> {
    c[mark := "true"]["field_path_full" := full]["dotted_path" := DottedPath(full)]
  }

  /** The head's pair, present only when the field's model resolves. */
  function HeadRefs(ctx: FileContext, l: Located, full: string): (r: seq<Reference>)
    ensures var res := FieldModel(l.elem, l.ancestors, ctx.global, ctx.local);
      (res.model == "" ==> r == [])
      && (res.model != "" ==> |r| == 2 && r[0].refType == "field_references_model" && r[0].refValue == res.model
                              && r[1].refType == "model_referenced_by_field" && r[1].refValue == Head(full))
  {
    var e := l.elem;
    var res := FieldModel(e, l.ancestors, ctx.global, ctx.local);
    if res.model == "" then []
    else
      var pv := ParentView(l.ancestors);
      var c := FieldContext(e, res, pv);
      var c1 := c["field_name" := Head(full)];
      var c2 := c["model" := res.model];
      var dotted := '.' in full;
      [Ref(ctx, "field_references_model", res.model, if dotted then Dotted(c1, full, "is_head_of_dotted_field") else c1),
       Ref(ctx, "model_referenced_by_field", Head(full), if dotted then Dotted(c2, full, "is_head_of_dotted_field") else c2)]
  }

  /** The tail's pair, present only for a dotted name whose tail model resolves. */
  function TailRefs(ctx: FileContext, l: Located, full: string): (r: seq<Reference>)
    ensures var res := TailModel(l.elem, l.ancestors, ctx.global, ctx.local);
      (('.' !in full || res.model == "") ==> r == [])
      && ('.' in full && res.model != "" ==>
            |r| == 2 && r[0].refType == "field_references_model" && r[0].refValue == res.model
            && r[1].refType == "model_referenced_by_field" && r[1].refValue == LastPiece(full, '.')
            && '.' !in r[1].refValue)
  {
    SplitLastShape(full, '.');
    var e := l.elem;
    var res := TailModel(e, l.ancestors, ctx.global, ctx.local);
    if '.' !in full || res.model == "" then []
    else
      var pv := ParentView(l.ancestors);
      var c := FieldContext(e, res, pv);
      var tail := LastPiece(full, '.');
      [Ref(ctx, "field_references_model", res.model, Dotted(c["field_name" := tail], full, "is_tail_of_dotted_field")),
       Ref(ctx, "model_referenced_by_field", tail, Dotted(c["model" := res.model], full, "is_tail_of_dotted_field"))]
  }

  /**
   * `_extract_field_references` for one element: for a named field-like
   * element, the head's pair when its model resolves, then the tail's pair
   * when the name is dotted and the tail's model resolves.
   */
  function FieldRefs(ctx: FileContext, l: Located): (r: seq<Reference>)
    ensures !(LocalTag(l.elem) in FieldTags && FullFieldName(l.elem) != "") ==> r == []
    ensures LocalTag(l.elem) in FieldTags && FullFieldName(l.elem) != "" ==>
      r == HeadRefs(ctx, l, FullFieldName(l.elem)) + TailRefs(ctx, l, FullFieldName(l.elem))
  {
    var full := FullFieldName(l.elem);
    if LocalTag(l.elem) in FieldTags && full != "" then HeadRefs(ctx, l, full) + TailRefs(ctx, l, full) else []
  }

  // ---------------------------------------------------------------------
  // One file
  // ---------------------------------------------------------------------

  /** The extraction passes, in the order the extractor runs them. */
  datatype Pass = Definitions | Groups | Methods | Events | Views | Fields

  const Passes: seq<Pass> := [Definitions, Groups, Methods, Events, Views, Fields]

  function PassRefs(ctx: FileContext, pass: Pass, l: Located): seq<Reference> {
    match pass
    case Definitions => DefinitionRefs(ctx, l)
    case Groups => GroupRefs(ctx, l)
    case Methods => MethodRefs(ctx, l)
    case Events => EventRefs(ctx, l, ctx.events)
    case Views => ViewRefs(ctx, l)
    case Fields => FieldRefs(ctx, l)
  }

  function PassFn(ctx: FileContext, pass: Pass): Located -> seq<Reference> {
    l => PassRefs(ctx, pass, l)
  }

  /** The references of the passes from `k` on, each over the whole iteration. */
  function PassesFrom(ctx: FileContext, nodes: seq<Located>, k: nat): seq<Reference>
    requires k <= |Passes|
    decreases |Passes| - k
  {
    if k == |Passes| then [] else FlatMap(nodes, PassFn(ctx, Passes[k])) + PassesFrom(ctx, nodes, k + 1)
  }

  /** The context of a file: its path, module, the event attributes and both view maps. */
  function ContextFor(file: string, parts: seq<string>, events: seq<string>, global: map<string, string>,
                      nodes: seq<Located>): FileContext {
    FileContext(file, ModuleFromPath(parts), events, global, ViewModelMap(nodes))
  }

  /**
   * The references of a file: none when it does not parse; otherwise each
   * pass over the whole tree in turn, then the references of the viewer and
   * expression passes (`others`), which are not modelled.
   */
  function FileReferences(file: string, parts: seq<string>, parsed: Option<Element>, events: seq<string>,
                          global: map<string, string>, others: seq<Reference>): seq<Reference>
  {
    match parsed
    case None => []
    case Some(root) =>
      var nodes := Iter(root, []);
      PassesFrom(ContextFor(file, parts, events, global, nodes), nodes, 0) + others
  }

  /** One pass of the extractor: a loop over the tree's iteration appending each element's references. */
  method RunPass(ctx: FileContext, pass: Pass, nodes: seq<Located>) returns (refs: seq<Reference>)
    ensures refs == FlatMap(nodes, PassFn(ctx, pass))
  {
    refs := [];
    var i := 0;
    while i < |nodes|
      invariant 0 <= i <= |nodes|
      invariant refs == FlatMap(nodes[..i], PassFn(ctx, pass))
    {
      var f := PassFn(ctx, pass);
      FlatMapSnoc(nodes, i, f);
      refs := refs + f(nodes[i]);
      i := i + 1;
    }
    assert nodes[..i] == nodes;
  }

  /** The passes in their fixed order, each run over the whole tree, their references concatenated. */
  method RunPasses(ctx: FileContext, nodes: seq<Located>) returns (refs: seq<Reference>)
    ensures refs == PassesFrom(ctx, nodes, 0)
  {
    refs := [];
    var k := 0;
    while k < |Passes|
      invariant 0 <= k <= |Passes|
      invariant refs + PassesFrom(ctx, nodes, k) == PassesFrom(ctx, nodes, 0)
    {
      var more := RunPass(ctx, Passes[k], nodes);
      assert PassesFrom(ctx, nodes, k) == more + PassesFrom(ctx, nodes, k + 1);
      ConcatStep(refs, more, PassesFrom(ctx, nodes, k + 1), PassesFrom(ctx, nodes, k));
      refs := refs + more;
      k := k + 1;
    }
    AppendEmpty(refs);
  }

  // ---------------------------------------------------------------------
  // Entries
  // ---------------------------------------------------------------------

  /** The text stored for a reference: "{type}: {value}", then " in module {m}" when the module is known. */
  function Document(r: Reference): string {
    r.refType + ": " + r.refValue + (if r.moduleName != "" then " in module " + r.moduleName else "")
  }

  /**
   * The metadata of a reference, with the routing key `source_file` (the
   * threaded extractor) or without it (the sequential one); `json` is the
   * serialisation of the context.
   */
  function EntryFor(r: Reference, json: map<string, string> -> string, withSourceFile: bool): (e: Entry)
    ensures "calleeSymbol" in e.metadata && e.metadata["calleeSymbol"] == VStr(r.refValue)
    ensures "usageType" in e.metadata && e.metadata["usageType"] == VStr(r.refType)
    ensures "source" in e.metadata && e.metadata["source"] == VStr("xml")
    ensures "source_file" in e.metadata <==> withSourceFile
    ensures "context" in e.metadata && e.metadata["context"] == VStr(if |r.context| == 0 then "" else json(r.context))
  {
    var m := map["source" := VStr("xml"), "usageType" := VStr(r.refType), "callerUri" := VStr(r.filePath),
                 "callerLine" := VInt(r.line), "calleeSymbol" := VStr(r.refValue), "module" := VStr(r.moduleName),
                 "context" := VStr(if |r.context| == 0 then "" else json(r.context))];
    Entry(Document(r), if withSourceFile then m["source_file" := VStr(r.filePath)] else m)
  }

  /** The two extractors store the same entry, but for the routing key. */
  lemma EntriesDifferBySourceFile(r: Reference, json: map<string, string> -> string)
    ensures EntryFor(r, json, false).document == EntryFor(r, json, true).document
    ensures EntryFor(r, json, false).metadata == EntryFor(r, json, true).metadata - {"source_file"}
    ensures EntryFor(r, json, true).metadata["source_file"] == VStr(r.filePath)
  {
  }

  /** `_convert_to_entries`: one entry per reference, in order. */
  method ConvertToEntries(refs: seq<Reference>, json: map<string, string> -> string, withSourceFile: bool)
      returns (entries: seq<Entry>)
    ensures |entries| == |refs|
    ensures forall i :: 0 <= i < |refs| ==> entries[i] == EntryFor(refs[i], json, withSourceFile)
  {
    entries := [];
    var i := 0;
    while i < |refs|
      invariant 0 <= i <= |refs|
      invariant |entries| == i
      invariant forall k :: 0 <= k < i ==> entries[k] == EntryFor(refs[k], json, withSourceFile)
    {
      ghost var f := (r: Reference) => EntryFor(r, json, withSourceFile);
      MapSnoc(entries, refs, f, i);
      entries := entries + [EntryFor(refs[i], json, withSourceFile)];
      i := i + 1;
    }
  }

  /**
   * `extract_from_file`: the file's module from its path, the parent map and
   * the file's view map from its tree, the passes in order, then the entries.
   */
  method ExtractFromFile(file: string, parts: seq<string>, parsed: Option<Element>, events: seq<string>,
                         global: map<string, string>, others: seq<Reference>,
                         json: map<string, string> -> string, withSourceFile: bool)
      returns (entries: seq<Entry>)
    ensures parsed.None? ==> entries == []
    ensures |entries| == |FileReferences(file, parts, parsed, events, global, others)|
    ensures forall i :: 0 <= i < |entries| ==>
              entries[i] == EntryFor(FileReferences(file, parts, parsed, events, global, others)[i], json, withSourceFile)
  {
    var refs: seq<Reference>;
    if parsed.Some? {
      var nodes := Iter(parsed.value, []);
      var local := BuildViewModelMap(nodes);
      var ctx := FileContext(file, ModuleFromPath(parts), events, global, local);
      assert ctx == ContextFor(file, parts, events, global, nodes);
      var passes := RunPasses(ctx, nodes);
      refs := passes + others;
    } else {
      refs := [];
    }
    assert refs == FileReferences(file, parts, parsed, events, global, others);
    entries := ConvertToEntries(refs, json, withSourceFile);
  }
}
