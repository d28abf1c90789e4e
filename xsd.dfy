/**
 * The Axelor view schema reader: the event attributes, view types, action
 * types and conditional attributes it collects from the XSD tree, and the
 * sorted metadata it hands to the XML reference extractor.
 */
module Xsd {
  import opened StringUtil
  import opened XmlTree

  const XsdNs: string := "{http://www.w3.org/2001/XMLSchema}"

  /** The elements met by the iteration whose raw tag is `tag`, in document order. */
  function WithTag(ls: seq<Located>, tag: string): seq<Element>
    decreases |ls|
  {
    if |ls| == 0 then []
    else WithTag(ls[..|ls| - 1], tag) + (if ls[|ls| - 1].elem.tag == tag then [ls[|ls| - 1].elem] else [])
  }

  lemma {:induction false} WithTagSpec(ls: seq<Located>, tag: string, e: Element)
    ensures e in WithTag(ls, tag) <==> e.tag == tag && exists i :: 0 <= i < |ls| && ls[i].elem == e
    decreases |ls|
  {
    if |ls| > 0 {
      var init := ls[..|ls| - 1];
      WithTagSpec(init, tag, e);
      if exists i :: 0 <= i < |ls| && ls[i].elem == e {
        var i :| 0 <= i < |ls| && ls[i].elem == e;
        if i < |init| {
          assert init[i] == ls[i];
        }
      }
      if exists i :: 0 <= i < |init| && init[i].elem == e {
        var i :| 0 <= i < |init| && init[i].elem == e;
        assert ls[i] == init[i];
      }
    }
  }

  /** `root.iter("{ns}attribute")`. */
  function AttributeElements(root: Element): seq<Element> {
    WithTag(Iter(root, []), XsdNs + "attribute")
  }

  /** The `element` children of each `choice` met by `root.iter("{ns}choice")`, choice by choice. */
  function ChoiceElements(root: Element): seq<Element> {
    ElementChildren(WithTag(Iter(root, []), XsdNs + "choice"))
  }

  /** `choice.findall("{ns}element")` for each choice: its direct children tagged `element`, in order. */
  function ElementChildren(choices: seq<Element>): seq<Element>
    decreases |choices|
  {
    if |choices| == 0 then []
    else ElementChildren(choices[..|choices| - 1]) + ChildrenTagged(choices[|choices| - 1].children, XsdNs + "element")
  }

  function ChildrenTagged(kids: seq<Element>, tag: string): (r: seq<Element>)
    ensures forall e :: e in r <==> e in kids && e.tag == tag
    decreases |kids|
  {
    if |kids| == 0 then []
    else ChildrenTagged(kids[..|kids| - 1], tag) + (if kids[|kids| - 1].tag == tag then [kids[|kids| - 1]] else [])
  }

  lemma {:induction false} ElementChildrenSpec(choices: seq<Element>, e: Element)
    ensures e in ElementChildren(choices) <==>
              e.tag == XsdNs + "element" && exists i :: 0 <= i < |choices| && e in choices[i].children
    decreases |choices|
  {
    if |choices| > 0 {
      var init := choices[..|choices| - 1];
      ElementChildrenSpec(init, e);
      if exists i :: 0 <= i < |choices| && e in choices[i].children {
        var i :| 0 <= i < |choices| && e in choices[i].children;
        if i < |init| {
          assert init[i] == choices[i];
        }
      }
      if exists i :: 0 <= i < |init| && e in init[i].children {
        var i :| 0 <= i < |init| && e in init[i].children;
        assert choices[i] == init[i];
      }
    }
  }

  /** The `name` of each element satisfying `keep`, in order; a missing name reads as "". */
  function NamesWhere(es: seq<Element>, keep: Element -> bool): seq<string>
    decreases |es|
  {
    if |es| == 0 then []
    else NamesWhere(es[..|es| - 1], keep) + (if keep(es[|es| - 1]) then [Attr(es[|es| - 1], "name")] else [])
  }

  lemma {:induction false} NamesWhereSpec(es: seq<Element>, keep: Element -> bool, x: string)
    ensures x in NamesWhere(es, keep) <==> exists e :: e in es && keep(e) && Attr(e, "name") == x
    decreases |es|
  {
    if |es| > 0 {
      var init := es[..|es| - 1];
      NamesWhereSpec(init, keep, x);
      if exists e :: e in es && keep(e) && Attr(e, "name") == x {
        var e :| e in es && keep(e) && Attr(e, "name") == x;
        if e != es[|es| - 1] {
          var i :| 0 <= i < |es| && es[i] == e;
          assert init[i] == e;
        }
      }
    }
  }

  predicate NotProhibited(e: Element) {
    Attr(e, "use") != "prohibited"
  }

  predicate IsEventAttribute(e: Element) {
    StartsWith(Attr(e, "name"), "on") && NotProhibited(e)
  }

  const ConditionalPatterns: seq<string> := ["If", "domain", "target", "expr", "value"]

  predicate IsConditionalAttribute(e: Element) {
    (exists p :: p in ConditionalPatterns && Contains(Attr(e, "name"), p)) && NotProhibited(e)
  }

  predicate IsActionType(e: Element) {
    StartsWith(Attr(e, "name"), "action-")
  }

  predicate IsViewType(e: Element) {
    !StartsWith(Attr(e, "name"), "action-") && !StartsWith(Attr(e, "name"), "menuitem")
  }

  function EventAttributes(root: Element): seq<string> {
    NamesWhere(AttributeElements(root), IsEventAttribute)
  }

  function ConditionalAttributes(root: Element): seq<string> {
    NamesWhere(AttributeElements(root), IsConditionalAttribute)
  }

  function ViewTypes(root: Element): seq<string> {
    NamesWhere(ChoiceElements(root), IsViewType)
  }

  function ActionTypes(root: Element): seq<string> {
    NamesWhere(ChoiceElements(root), IsActionType)
  }

  /** What `get_metadata` returns: each collection as a sorted list without duplicates. */
  datatype Metadata = Metadata(eventAttributes: seq<string>, viewTypes: seq<string>,
                               actionTypes: seq<string>, conditionalAttributes: seq<string>)

  function GetMetadata(root: Element): (m: Metadata)
    ensures StrictlySorted(m.eventAttributes) && StrictlySorted(m.viewTypes)
    ensures StrictlySorted(m.actionTypes) && StrictlySorted(m.conditionalAttributes)
    ensures forall x :: x in m.eventAttributes <==> x in EventAttributes(root)
    ensures forall x :: x in m.viewTypes <==> x in ViewTypes(root)
    ensures forall x :: x in m.actionTypes <==> x in ActionTypes(root)
    ensures forall x :: x in m.conditionalAttributes <==> x in ConditionalAttributes(root)
  {
    Metadata(SortedDistinct(EventAttributes(root)), SortedDistinct(ViewTypes(root)),
             SortedDistinct(ActionTypes(root)), SortedDistinct(ConditionalAttributes(root)))
  }

  /** An attribute is reported as an event attribute exactly when its name starts with "on" and it is not prohibited. */
  lemma EventAttributesSpec(root: Element, x: string)
    ensures x in GetMetadata(root).eventAttributes <==>
              StartsWith(x, "on")
              && exists e :: e in AttributeElements(root) && Attr(e, "name") == x && NotProhibited(e)
  {
    NamesWhereSpec(AttributeElements(root), IsEventAttribute, x);
  }

  /** A conditional attribute's name contains one of the five patterns, and it is not prohibited. */
  lemma ConditionalAttributesSpec(root: Element, x: string)
    ensures x in GetMetadata(root).conditionalAttributes <==>
              (exists p :: p in ConditionalPatterns && Contains(x, p))
              && exists e :: e in AttributeElements(root) && Attr(e, "name") == x && NotProhibited(e)
  {
    NamesWhereSpec(AttributeElements(root), IsConditionalAttribute, x);
  }

  /**
   * Every element listed in a choice is an action type, a view type or a
   * menu item; the action types start "action-", the view types start with
   * neither "action-" nor "menuitem", so no name is both.
   */
  lemma ChoicePartition(root: Element, x: string)
    ensures x in GetMetadata(root).actionTypes ==> StartsWith(x, "action-")
    ensures x in GetMetadata(root).viewTypes ==> !StartsWith(x, "action-") && !StartsWith(x, "menuitem")
    ensures !(x in GetMetadata(root).actionTypes && x in GetMetadata(root).viewTypes)
    ensures (exists e :: e in ChoiceElements(root) && Attr(e, "name") == x) <==>
              x in GetMetadata(root).actionTypes || x in GetMetadata(root).viewTypes
              || (StartsWith(x, "menuitem") && exists e :: e in ChoiceElements(root) && Attr(e, "name") == x)
  {
    NamesWhereSpec(ChoiceElements(root), IsActionType, x);
    NamesWhereSpec(ChoiceElements(root), IsViewType, x);
  }

  /** The attribute elements are the `attribute`-tagged elements met by the iteration from the root. */
  lemma AttributeElementsSpec(root: Element, e: Element)
    ensures e in AttributeElements(root) <==> e.tag == XsdNs + "attribute" && exists l :: l in Iter(root, []) && l.elem == e
  {
    var ls := Iter(root, []);
    WithTagSpec(ls, XsdNs + "attribute", e);
    if exists l :: l in ls && l.elem == e {
      var l :| l in ls && l.elem == e;
      var i :| 0 <= i < |ls| && ls[i] == l;
    }
  }

  /** The choice elements are the `element` children of the `choice` elements met by the iteration. */
  lemma ChoiceElementsSpec(root: Element, e: Element)
    ensures e in ChoiceElements(root) <==>
              e.tag == XsdNs + "element"
              && exists c :: c in WithTag(Iter(root, []), XsdNs + "choice") && e in c.children
  {
    var cs := WithTag(Iter(root, []), XsdNs + "choice");
    ElementChildrenSpec(cs, e);
  }
}
