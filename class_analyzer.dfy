/**
 * The bytecode visitor of the analysis service: for one class file it
 * records a class node, one node per method, and the inheritance, member
 * and call edges between binary names. Reading the class file and
 * decoding descriptors belong to the bytecode library; the model receives
 * the decoded values. Access flags follow Table 4.1-B of the Java Virtual
 * Machine Specification.
 */
module ClassAnalyzer {
  import opened Common
  import opened StringUtil

  // ---------------------------------------------------------------------
  // Access flags and modifiers

  const AccPublic: bv32 := 0x0001
  const AccPrivate: bv32 := 0x0002
  const AccProtected: bv32 := 0x0004
  const AccStatic: bv32 := 0x0008
  const AccFinal: bv32 := 0x0010
  const AccInterface: bv32 := 0x0200
  const AccAbstract: bv32 := 0x0400
  const AccEnum: bv32 := 0x4000

  /** The opcode `invokespecial`. */
  const InvokeSpecial: int := 183

  predicate HasFlag(access: bv32, flag: bv32) {
    access & flag != 0
  }

  datatype Modifier = Public | Private | Protected | Static | Final | Abstract

  function ModifierName(m: Modifier): string {
    match m
    case Public => "public"
    case Private => "private"
    case Protected => "protected"
    case Static => "static"
    case Final => "final"
    case Abstract => "abstract"
  }

  function Flag(m: Modifier): bv32 {
    match m
    case Public => AccPublic
    case Private => AccPrivate
    case Protected => AccProtected
    case Static => AccStatic
    case Final => AccFinal
    case Abstract => AccAbstract
  }

  /** The place of a modifier in the list `parseModifiers` builds. */
  function Rank(m: Modifier): nat {
    match m
    case Public => 0
    case Private => 1
    case Protected => 2
    case Static => 3
    case Final => 4
    case Abstract => 5
  }

  function IfSet(access: bv32, m: Modifier): seq<Modifier> {
    if HasFlag(access, Flag(m)) then [m] else []
  }

  /** The modifiers in the order `parseModifiers` tests them. */
  const ModifierOrder: seq<Modifier> := [Public, Private, Protected, Static, Final, Abstract]

  /** The modifiers of `ms` whose bit is set, in the order of `ms`. */
  function Selected(ms: seq<Modifier>, access: bv32): seq<Modifier>
    decreases |ms|
  {
    if |ms| == 0 then [] else IfSet(access, ms[0]) + Selected(ms[1..], access)
  }

  /** `parseModifiers`: each modifier whose bit is set, checked in a fixed order. */
  function ParseModifiers(access: bv32): seq<Modifier> {
    Selected(ModifierOrder, access)
  }

  predicate StrictlyRanked(ms: seq<Modifier>) {
    forall i, j :: 0 <= i < j < |ms| ==> Rank(ms[i]) < Rank(ms[j])
  }

  lemma {:induction false} SelectedShape(ms: seq<Modifier>, access: bv32, m: Modifier)
    requires StrictlyRanked(ms)
    ensures m in Selected(ms, access) <==> m in ms && HasFlag(access, Flag(m))
    ensures StrictlyRanked(Selected(ms, access))
    ensures forall x :: x in Selected(ms, access) ==> x in ms
    decreases |ms|
  {
    if |ms| > 0 {
      var rest := ms[1..];
      assert StrictlyRanked(rest) by {
        forall i, j | 0 <= i < j < |rest| ensures Rank(rest[i]) < Rank(rest[j]) {
          assert rest[i] == ms[i + 1] && rest[j] == ms[j + 1];
        }
      }
      SelectedShape(rest, access, m);
      var t := Selected(rest, access);
      forall x | x in t ensures Rank(ms[0]) < Rank(x) {
        var k :| 0 < k < |ms| && ms[k] == x;
      }
      var r := Selected(ms, access);
      assert r == IfSet(access, ms[0]) + t;
      forall i, j | 0 <= i < j < |r| ensures Rank(r[i]) < Rank(r[j]) {
        if |IfSet(access, ms[0])| == 1 && i == 0 {
          assert r[j] in t;
        }
      }
    }
  }

  /** A modifier is listed exactly when its bit is set, and the list follows the fixed order without repetition. */
  lemma ParseModifiersExact(access: bv32, m: Modifier)
    ensures m in ParseModifiers(access) <==> HasFlag(access, Flag(m))
    ensures StrictlyRanked(ParseModifiers(access))
  {
    SelectedShape(ModifierOrder, access, m);
    assert m in ModifierOrder by {
      match m
      case Public => assert ModifierOrder[0] == m;
      case Private => assert ModifierOrder[1] == m;
      case Protected => assert ModifierOrder[2] == m;
      case Static => assert ModifierOrder[3] == m;
      case Final => assert ModifierOrder[4] == m;
      case Abstract => assert ModifierOrder[5] == m;
    }
  }

  // ---------------------------------------------------------------------
  // Types, as the bytecode library decodes them

  datatype Primitive = Boolean | Byte | Char | Short | Int | Long | Float | Double

  function PrimitiveName(p: Primitive): string {
    match p
    case Boolean => "boolean"
    case Byte => "byte"
    case Char => "char"
    case Short => "short"
    case Int => "int"
    case Long => "long"
    case Float => "float"
    case Double => "double"
  }

  /** A decoded type: `void`, a primitive, a class by its internal name, or an array. */
  datatype JType = Void | Base(p: Primitive) | Obj(internal: string) | Arr(elem: JType)

  /** A decoded method descriptor. */
  datatype MethodType = MethodType(args: seq<JType>, ret: JType)

  /** A binary name with its package separators as dots. */
  function Dotted(internal: string): string {
    ReplaceChar(internal, '/', '.')
  }

  /** `Type.getClassName`: the source-level name, "[]" once per array dimension. */
  function ClassName(t: JType): string {
    match t
    case Void => "void"
    case Base(p) => PrimitiveName(p)
    case Obj(internal) => Dotted(internal)
    case Arr(elem) => ClassName(elem) + "[]"
  }

  /** The sorts OBJECT and ARRAY, the only ones the edges look at. */
  predicate IsReference(t: JType) {
    t.Obj? || t.Arr?
  }

  /** `isPrimitive`: the primitive names, `void`, and every name in `java.lang`. */
  predicate IsPrimitive(name: string) {
    name == "void" || name == "boolean" || name == "byte" || name == "char" || name == "short"
    || name == "int" || name == "long" || name == "float" || name == "double"
    || StartsWith(name, "java.lang.") || name == "java.lang.String" || name == "java.lang.Object"
  }

  /** A type the member edges link: a reference type whose name is not primitive. */
  predicate Linked(t: JType) {
    IsReference(t) && !IsPrimitive(ClassName(t))
  }

  /** The names of the argument types, in order. */
  function Names(ts: seq<JType>): seq<string> {
    seq(|ts|, i requires 0 <= i < |ts| => ClassName(ts[i]))
  }

  /** `descriptorToSignature`: the argument names, comma-separated, in parentheses. */
  function SignatureOf(args: seq<JType>): string {
    "(" + Join(Names(args), ", ") + ")"
  }

  /** The name of a method: its class, a '.', its own name and its signature. */
  function MethodFqnOf(cls: string, name: string, desc: MethodType): string {
    cls + "." + name + SignatureOf(desc.args)
  }

  /**
   * A class named in `java.lang`, or an array of such a class, is never
   * linked; an array of a primitive is, since "int[]" is not a primitive name.
   */
  lemma JavaLangNotLinked(t: JType, p: Primitive)
    ensures StartsWith(ClassName(t), "java.lang.") ==> !Linked(t) && !Linked(Arr(t))
    ensures Linked(Arr(Base(p)))
  {
    if StartsWith(ClassName(t), "java.lang.") {
      assert ClassName(Arr(t))[..10] == ClassName(t)[..10];
    }
    var n := ClassName(Arr(Base(p)));
    assert n[|n| - 1] == ']';
  }

  /** A class outside `java.lang`, by an internal name that is not a primitive's, is linked. */
  lemma DomainClassLinked(internal: string)
    requires '.' !in internal && !StartsWith(internal, "java/lang/")
    requires internal !in {"void", "boolean", "byte", "char", "short", "int", "long", "float", "double"}
    ensures Linked(Obj(internal))
  {
    var n := Dotted(internal);
    assert |n| == |internal|;
    if '.' !in n {
      assert n == internal;
    }
  }

  lemma NamesSnoc(ts: seq<JType>, i: nat)
    requires i < |ts|
    ensures Names(ts[..i + 1]) == Names(ts[..i]) + [ClassName(ts[i])]
  {
  }

  /** The signature has one comma per argument after the first, when no argument name has one. */
  lemma {:induction false} SignatureCommas(args: seq<JType>)
    requires forall i :: 0 <= i < |args| ==> ',' !in ClassName(args[i])
    ensures CountChar(SignatureOf(args), ',') == if |args| == 0 then 0 else |args| - 1
    decreases |args|
  {
    var names := Names(args);
    CountConcat("(", Join(names, ", ") + ")", ',');
    assert SignatureOf(args) == "(" + (Join(names, ", ") + ")");
    CountConcat(Join(names, ", "), ")", ',');
    JoinCommas(names);
  }

  lemma {:induction false} JoinCommas(names: seq<string>)
    requires forall i :: 0 <= i < |names| ==> ',' !in names[i]
    ensures CountChar(Join(names, ", "), ',') == if |names| == 0 then 0 else |names| - 1
    decreases |names|
  {
    if |names| == 1 {
      CountAbsent(names[0], ',');
    } else if |names| > 1 {
      var rest := names[1..];
      JoinCommas(rest);
      assert Join(names, ", ") == names[0] + (", " + Join(rest, ", "));
      CountConcat(names[0], ", " + Join(rest, ", "), ',');
      CountAbsent(names[0], ',');
      CountConcat(", ", Join(rest, ", "), ',');
    }
  }

  // ---------------------------------------------------------------------
  // Nodes and edges

  datatype NodeType = NClass | NInterface | NEnum | NMethod

  function NodeTypeName(t: NodeType): string {
    match t
    case NClass => "class"
    case NInterface => "interface"
    case NEnum => "enum"
    case NMethod => "method"
  }

  datatype Node =
    | ClassNode(fqn: string, classType: NodeType, modifiers: seq<Modifier>,
                isInterface: bool, isEnum: bool, isAbstract: bool, isEntity: bool)
    | MethodNode(fqn: string, lineNumber: int, modifiers: seq<Modifier>, hasOverride: bool, isTransactional: bool)

  /** The node's `nodeType`. */
  function TypeOf(n: Node): NodeType {
    if n.ClassNode? then n.classType else NMethod
  }

  datatype EdgeType = Inheritance | MemberOf | Call

  datatype EdgeKind = KExtends | KImplements | KClass | KReturn | KArgument | KMethod | KNew | KStandard

  /** One edge; only call edges carry a line number. */
  datatype Edge = Edge(edgeType: EdgeType, fromFqn: string, toFqn: string, kind: EdgeKind, lineNumber: Option<int>)

  /** An interface takes precedence over an enum, and both over a plain class. */
  function ClassTypeOf(access: bv32): NodeType {
    if HasFlag(access, AccInterface) then NInterface else if HasFlag(access, AccEnum) then NEnum else NClass
  }

  /**
   * An Axelor entity: a class with a superclass that is, by name, an
   * auditable model, or that lives in a `.db.` package and is not the
   * root model class itself.
   */
  predicate IsEntity(cls: string, superName: Option<string>) {
    superName.Some? &&
    (Contains(Dotted(superName.value), "AuditableModel") || (Contains(cls, ".db.") && cls != "com.axelor.db.Model"))
  }

  function ClassNodeOf(access: bv32, name: string, superName: Option<string>): Node {
    ClassNode(Dotted(name), ClassTypeOf(access), ParseModifiers(access),
              HasFlag(access, AccInterface), HasFlag(access, AccEnum), HasFlag(access, AccAbstract),
              IsEntity(Dotted(name), superName))
  }

  /** The node type agrees with the flags, and a class without a superclass is never an entity. */
  lemma ClassNodeFlags(access: bv32, name: string, superName: Option<string>)
    ensures var n := ClassNodeOf(access, name, superName);
      (TypeOf(n) == NInterface <==> n.isInterface)
      && (TypeOf(n) == NEnum <==> n.isEnum && !n.isInterface)
      && (TypeOf(n) == NClass <==> !n.isEnum && !n.isInterface)
      && (superName.None? ==> !n.isEntity)
      && (superName.Some? && Contains(n.fqn, ".db.") && n.fqn != "com.axelor.db.Model" ==> n.isEntity)
  {
  }

  const ObjectClass: string := "java/lang/Object"

  function ExtendsEdge(cls: string, superName: Option<string>): seq<Edge> {
    if superName.Some? && superName.value != ObjectClass
    then [Edge(Inheritance, cls, Dotted(superName.value), KExtends, None)]
    else []
  }

  function ImplementsEdges(cls: string, interfaces: seq<string>): seq<Edge> {
    seq(|interfaces|, i requires 0 <= i < |interfaces| => Edge(Inheritance, cls, Dotted(interfaces[i]), KImplements, None))
  }

  function OrEmpty(interfaces: Option<seq<string>>): seq<string> {
    if interfaces.Some? then interfaces.value else []
  }

  /** The inheritance edges of a class: its superclass unless it is `Object`, then its interfaces. */
  function InheritanceEdges(cls: string, superName: Option<string>, interfaces: Option<seq<string>>): seq<Edge> {
    ExtendsEdge(cls, superName) + ImplementsEdges(cls, OrEmpty(interfaces))
  }

  /**
   * All inheritance edges leave the class; there is one `extends` edge
   * exactly when the class names a superclass other than `Object`, and
   * it comes first; the `implements` edges follow the interfaces in order.
   */
  lemma InheritanceEdgesShape(cls: string, superName: Option<string>, interfaces: Option<seq<string>>)
    ensures var r := InheritanceEdges(cls, superName, interfaces);
      var x := if superName.Some? && superName.value != ObjectClass then 1 else 0;
      |r| == x + |OrEmpty(interfaces)|
      && (forall i :: 0 <= i < |r| ==> r[i].edgeType == Inheritance && r[i].fromFqn == cls && r[i].lineNumber.None?)
      && (forall i :: 0 <= i < |r| ==> (r[i].kind == KExtends <==> i < x))
      && (x == 1 ==> r[0].toFqn == Dotted(superName.value))
      && (forall i :: 0 <= i < |OrEmpty(interfaces)| ==>
            r[x + i].toFqn == Dotted(OrEmpty(interfaces)[i]) && r[x + i].kind == KImplements)
  {
  }

  /** The edge a field's type gets: from the type to the class, unless the type is not linked. */
  function FieldEdges(cls: string, t: JType): seq<Edge> {
    if Linked(t) then [Edge(MemberOf, ClassName(t), cls, KClass, None)] else []
  }

  function ReturnEdges(fqn: string, ret: JType): seq<Edge> {
    if Linked(ret) then [Edge(MemberOf, ClassName(ret), fqn, KReturn, None)] else []
  }

  /** The argument edges of a method, one per linked argument type, in order. */
  function ArgumentEdges(fqn: string, args: seq<JType>): seq<Edge>
    decreases |args|
  {
    if |args| == 0 then []
    else
      var last := args[|args| - 1];
      ArgumentEdges(fqn, args[..|args| - 1])
      + (if Linked(last) then [Edge(MemberOf, ClassName(last), fqn, KArgument, None)] else [])
  }

  /** The linked argument types' names, in order. */
  function LinkedNames(args: seq<JType>): seq<string>
    decreases |args|
  {
    if |args| == 0 then []
    else LinkedNames(args[..|args| - 1]) + (if Linked(args[|args| - 1]) then [ClassName(args[|args| - 1])] else [])
  }

  /**
   * The argument edges all point at the method with the kind `argument`,
   * and come from the linked argument types' names, in order.
   */
  lemma {:induction false} ArgumentEdgesShape(fqn: string, args: seq<JType>)
    ensures var r := ArgumentEdges(fqn, args);
      |r| == |LinkedNames(args)| && |r| <= |args|
      && forall i :: 0 <= i < |r| ==>
           r[i] == Edge(MemberOf, LinkedNames(args)[i], fqn, KArgument, None)
    decreases |args|
  {
    if |args| > 0 {
      ArgumentEdgesShape(fqn, args[..|args| - 1]);
    }
  }

  // ---------------------------------------------------------------------
  // The visitor

  const OverrideDescriptor: string := "Ljava/lang/Override;"
  const TransactionalDescriptors: seq<string> :=
    ["Lorg/springframework/transaction/annotation/Transactional;",
     "Ljavax/transaction/Transactional;",
     "Ljakarta/transaction/Transactional;"]

  /** `new` for a constructor invoked with `invokespecial`, `standard` for every other call. */
  function CallKind(opcode: int, name: string): EdgeKind {
    if opcode == InvokeSpecial && name == "<init>" then KNew else KStandard
  }

  /**
   * The visitor of one class file: the current class's name and flags,
   * and the nodes and edges found so far.
   */
  class Analyzer {
    var className: string
    var isInterface: bool
    var isEnum: bool
    var isAbstract: bool
    var modifiers: seq<Modifier>
    var nodes: seq<Node>
    var edges: seq<Edge>

    constructor ()
      ensures nodes == [] && edges == []
    {
      className := "";
      isInterface, isEnum, isAbstract := false, false, false;
      modifiers := [];
      nodes, edges := [], [];
    }

    /** `visit`: the class header gives the class node and its inheritance edges. */
    method Visit(access: bv32, name: string, superName: Option<string>, interfaces: Option<seq<string>>)
      modifies this
      ensures className == Dotted(name)
      ensures isInterface == HasFlag(access, AccInterface) && isEnum == HasFlag(access, AccEnum)
      ensures isAbstract == HasFlag(access, AccAbstract) && modifiers == ParseModifiers(access)
      ensures nodes == old(nodes) + [ClassNodeOf(access, name, superName)]
      ensures edges == old(edges) + InheritanceEdges(className, superName, interfaces)
    {
      SetHeader(access, name);
      var isEntity := false;
      if superName.Some? {
        var superFqn := ReplaceChar(superName.value, '/', '.');
        isEntity := Contains(superFqn, "AuditableModel") || (Contains(className, ".db.") && className != "com.axelor.db.Model");
      }
      var nodeType := if isInterface then NInterface else if isEnum then NEnum else NClass;
      nodes := nodes + [ClassNode(className, nodeType, modifiers, isInterface, isEnum, isAbstract, isEntity)];
      AddInheritance(superName, interfaces);
    }

    /** The class's name in dotted form and its flags. */
    method SetHeader(access: bv32, name: string)
      modifies this`className, this`isInterface, this`isEnum, this`isAbstract, this`modifiers
      ensures className == Dotted(name)
      ensures isInterface == HasFlag(access, AccInterface) && isEnum == HasFlag(access, AccEnum)
      ensures isAbstract == HasFlag(access, AccAbstract) && modifiers == ParseModifiers(access)
    {
      className := ReplaceChar(name, '/', '.');
      isInterface := access & AccInterface != 0;
      isEnum := access & AccEnum != 0;
      isAbstract := access & AccAbstract != 0;
      modifiers := ParseModifiers(access);
    }

    /** The inheritance edges of the current class: its superclass unless it is `Object`, then its interfaces. */
    method AddInheritance(superName: Option<string>, interfaces: Option<seq<string>>)
      modifies this`edges
      ensures edges == old(edges) + InheritanceEdges(className, superName, interfaces)
    {
      if superName.Some? && superName.value != ObjectClass {
        edges := edges + [Edge(Inheritance, className, ReplaceChar(superName.value, '/', '.'), KExtends, None)];
      }
      if interfaces.Some? {
        AddImplements(interfaces.value);
      }
      ghost var e, i := ExtendsEdge(className, superName), ImplementsEdges(className, OrEmpty(interfaces));
      assert edges == old(edges) + e + i;
    }

    /** The `implements` edges of the current class, one per interface, in order. */
    method AddImplements(ifaces: seq<string>)
      modifies this`edges
      ensures edges == old(edges) + ImplementsEdges(className, ifaces)
    {
      for i := 0 to |ifaces|
        invariant edges == old(edges) + ImplementsEdges(className, ifaces[..i])
      {
        assert ImplementsEdges(className, ifaces[..i + 1])
            == ImplementsEdges(className, ifaces[..i]) + [Edge(Inheritance, className, Dotted(ifaces[i]), KImplements, None)];
        edges := edges + [Edge(Inheritance, className, ReplaceChar(ifaces[i], '/', '.'), KImplements, None)];
      }
      assert ifaces[..|ifaces|] == ifaces;
    }

    /** `visitField`: a member edge from the field's type to the class, when the type is linked. */
    method VisitField(fieldType: JType)
      modifies this`edges
      ensures edges == old(edges) + FieldEdges(className, fieldType)
    {
      if IsReference(fieldType) {
        var name := ClassName(fieldType);
        if !IsPrimitive(name) {
          edges := edges + [Edge(MemberOf, name, className, KClass, None)];
        }
      }
    }

    /**
     * `visitMethod`: the member edges of the return and argument types,
     * then the method's node and its `method` edge to the class; the
     * returned visitor follows the method's body.
     */
    method VisitMethod(access: bv32, name: string, desc: MethodType) returns (m: MethodAnalyzer)
      modifies this`nodes, this`edges
      ensures fresh(m) && m.owner == this && m.Valid()
      ensures m.methodFqn == MethodFqnOf(className, name, desc) && m.nodeIndex == |old(nodes)|
      ensures m.currentLine == -1 && m.methodStartLine == -1
      ensures nodes == old(nodes) + [MethodNode(m.methodFqn, -1, ParseModifiers(access), false, false)]
      ensures edges == old(edges) + ReturnEdges(m.methodFqn, desc.ret) + ArgumentEdges(m.methodFqn, desc.args)
                       + [Edge(MemberOf, m.methodFqn, className, KMethod, None)]
    {
      var sig := DescriptorToSignature(desc.args);
      var fqn := className + "." + name + sig;
      var mods := ParseModifiers(access);
      AddReturnEdge(fqn, desc.ret);
      AddArgumentEdges(fqn, desc.args);
      m := new MethodAnalyzer(this, fqn, mods);
    }

    /** The member edge of a method's return type, when the type is linked. */
    method AddReturnEdge(fqn: string, ret: JType)
      modifies this`edges
      ensures edges == old(edges) + ReturnEdges(fqn, ret)
    {
      if IsReference(ret) {
        var name := ClassName(ret);
        if !IsPrimitive(name) {
          edges := edges + [Edge(MemberOf, name, fqn, KReturn, None)];
        }
      }
    }

    /** The member edges of a method's argument types, one per linked type, in order. */
    method AddArgumentEdges(fqn: string, args: seq<JType>)
      modifies this`edges
      ensures edges == old(edges) + ArgumentEdges(fqn, args)
    {
      for i := 0 to |args|
        invariant edges == old(edges) + ArgumentEdges(fqn, args[..i])
      {
        assert args[..i + 1][..i] == args[..i];
        if IsReference(args[i]) {
          var argFqn := ClassName(args[i]);
          if !IsPrimitive(argFqn) {
            edges := edges + [Edge(MemberOf, argFqn, fqn, KArgument, None)];
          }
        }
      }
      assert args[..|args|] == args;
    }
  }

  /** `descriptorToSignature`, built piece by piece. */
  method DescriptorToSignature(args: seq<JType>) returns (sig: string)
    ensures sig == SignatureOf(args)
  {
    sig := "(";
    for i := 0 to |args|
      invariant sig == "(" + Join(Names(args[..i]), ", ")
    {
      NamesSnoc(args, i);
      if i > 0 {
        JoinSnoc(Names(args[..i + 1]), ", ");
        assert Names(args[..i + 1])[..i] == Names(args[..i]);
        sig := sig + ", ";
      }
      sig := sig + ClassName(args[i]);
    }
    assert args[..|args|] == args;
    sig := sig + ")";
  }

  /**
   * The visitor of one method body. Its node is the one at `nodeIndex` in
   * the owner's list, which it updates in place.
   */
  class MethodAnalyzer {
    const owner: Analyzer
    const methodFqn: string
    const nodeIndex: nat
    var currentLine: int
    var methodStartLine: int

    /** The method's node is in place, and carries the first line seen (-1 before any). */
    predicate Valid()
      reads this, owner
    {
      nodeIndex < |owner.nodes| && owner.nodes[nodeIndex].MethodNode?
      && owner.nodes[nodeIndex].fqn == methodFqn
      && owner.nodes[nodeIndex].lineNumber == methodStartLine
    }

    constructor (owner: Analyzer, methodFqn: string, modifiers: seq<Modifier>)
      modifies owner`nodes, owner`edges
      ensures this.owner == owner && this.methodFqn == methodFqn && nodeIndex == |old(owner.nodes)|
      ensures currentLine == -1 && methodStartLine == -1
      ensures owner.nodes == old(owner.nodes) + [MethodNode(methodFqn, -1, modifiers, false, false)]
      ensures owner.edges == old(owner.edges) + [Edge(MemberOf, methodFqn, owner.className, KMethod, None)]
      ensures Valid()
    {
      this.owner := owner;
      this.methodFqn := methodFqn;
      nodeIndex := |owner.nodes|;
      currentLine := -1;
      methodStartLine := -1;
      new;
      owner.nodes := owner.nodes + [MethodNode(methodFqn, -1, modifiers, false, false)];
      owner.edges := owner.edges + [Edge(MemberOf, methodFqn, owner.className, KMethod, None)];
    }

    /** `visitAnnotation`: `@Override` and the three `@Transactional` annotations mark the node. */
    method VisitAnnotation(descriptor: string)
      requires Valid()
      modifies owner`nodes
      ensures Valid()
      ensures var n := old(owner.nodes[nodeIndex]);
        owner.nodes == old(owner.nodes)[nodeIndex :=
          n.(hasOverride := n.hasOverride || descriptor == OverrideDescriptor,
             isTransactional := n.isTransactional || descriptor in TransactionalDescriptors)]
    {
      var n := owner.nodes[nodeIndex];
      if descriptor == OverrideDescriptor {
        n := n.(hasOverride := true);
      }
      if descriptor == TransactionalDescriptors[0] || descriptor == TransactionalDescriptors[1]
         || descriptor == TransactionalDescriptors[2] {
        n := n.(isTransactional := true);
      }
      owner.nodes := owner.nodes[nodeIndex := n];
    }

    /**
     * `visitLineNumber`: the line becomes current, and the first line seen
     * becomes the method's line. Line numbers are unsigned 16-bit values.
     */
    method VisitLineNumber(line: int)
      requires Valid() && 0 <= line < 0x1_0000
      modifies this, owner`nodes
      ensures Valid() && currentLine == line
      ensures methodStartLine == if old(methodStartLine) == -1 then line else old(methodStartLine)
      ensures owner.nodes == old(owner.nodes)[nodeIndex := old(owner.nodes[nodeIndex]).(lineNumber := methodStartLine)]
    {
      currentLine := line;
      if methodStartLine == -1 {
        methodStartLine := line;
      }
      owner.nodes := owner.nodes[nodeIndex := owner.nodes[nodeIndex].(lineNumber := methodStartLine)];
    }

    /** `visitMethodInsn`: one call edge, at the line seen last (-1 before any). */
    method VisitMethodInsn(opcode: int, ownerName: string, name: string, desc: MethodType)
      requires Valid()
      modifies owner`edges
      ensures Valid()
      ensures owner.edges == old(owner.edges)
        + [Edge(Call, methodFqn, MethodFqnOf(Dotted(ownerName), name, desc), CallKind(opcode, name), Some(currentLine))]
    {
      var sig := DescriptorToSignature(desc.args);
      var target := ReplaceChar(ownerName, '/', '.') + "." + name + sig;
      var kind := if opcode == InvokeSpecial && name == "<init>" then KNew else KStandard;
      owner.edges := owner.edges + [Edge(Call, methodFqn, target, kind, Some(currentLine))];
    }
  }
}
