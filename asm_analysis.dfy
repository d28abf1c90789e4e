/**
 * The bytecode analysis service's two endpoints: `/analyze`, which picks
 * the class files a request names, runs the class visitor on each and
 * groups the nodes and edges by class and method; and `/index`, which turns
 * one class file's nodes into symbols. Paths, directory walks and the
 * visitor's output on a file are parameters.
 */
module AsmAnalysis {
  import opened Common
  import opened StringUtil
  import opened ClassAnalyzer

  // ---------------------------------------------------------------------
  // The domain filter

  /** The domain filter admits everything when it is absent or empty, else the names starting with a domain. */
  predicate DomainMatch(fqn: string, domains: Option<seq<string>>) {
    domains.None? || |domains.value| == 0 || exists d :: d in domains.value && StartsWith(fqn, d)
  }

  /** `matchesDomainFilter`, scanning the domains in order. */
  method MatchesDomainFilter(fqn: string, domains: Option<seq<string>>) returns (r: bool)
    ensures r == DomainMatch(fqn, domains)
  {
    if domains.None? || |domains.value| == 0 {
      return true;
    }
    var ds := domains.value;
    for i := 0 to |ds|
      invariant forall j :: 0 <= j < i ==> !StartsWith(fqn, ds[j])
    {
      if StartsWith(fqn, ds[i]) {
        return true;
      }
    }
    return false;
  }

  /** A name extending an admitted name is admitted, and the empty domain admits every name. */
  lemma DomainMatchExtends(fqn: string, suffix: string, domains: Option<seq<string>>)
    ensures DomainMatch(fqn, domains) ==> DomainMatch(fqn + suffix, domains)
    ensures domains.Some? && "" in domains.value ==> DomainMatch(fqn, domains)
  {
    if domains.Some? && |domains.value| > 0 && DomainMatch(fqn, domains) {
      var d :| d in domains.value && StartsWith(fqn, d);
      assert (fqn + suffix)[..|d|] == fqn[..|d|];
    }
    if domains.Some? && "" in domains.value {
      assert StartsWith(fqn, "");
    }
  }

  // ---------------------------------------------------------------------
  // Choosing the class files

  /** The body of an `/analyze` request; `None` is a missing key. */
  datatype Request = Request(packageRoots: Option<seq<string>>, classDirs: Option<seq<string>>,
                             classFiles: Option<seq<string>>, mapping: Option<map<string, string>>,
                             limit: Option<int>, domains: Option<seq<string>>, packageName: Option<string>)

  /** What the request names: class directories with their source mapping, or class files. */
  datatype Sources = Sources(classDirs: seq<string>, mapping: map<string, string>, classFiles: seq<string>,
                             detected: Option<string>)

  datatype Failure = Failure(status: int, error: string)

  /** A path below a directory. */
  function Resolve(dir: string, child: string): string {
    dir + "/" + child
  }

  /** The last name of a path. */
  function FileName(path: string): string {
    LastPiece(path, '/')
  }

  /** A package root contributes its `classes` directory, and the mapping to its `sources` directory when both exist. */
  function RootStep(s: (seq<string>, map<string, string>), root: string, isDir: string -> bool): (seq<string>, map<string, string>) {
    var classes := Resolve(root, "classes");
    var sources := Resolve(root, "sources");
    if isDir(classes) then
      (s.0 + [classes], if isDir(sources) then s.1[classes := sources] else s.1)
    else s
  }

  function RootsInto(roots: seq<string>, isDir: string -> bool): (seq<string>, map<string, string>)
    decreases |roots|
  {
    if |roots| == 0 then ([], map[])
    else RootStep(RootsInto(roots[..|roots| - 1], isDir), roots[|roots| - 1], isDir)
  }

  /** The listed class files that exist and are named `.class`, in order. */
  function ValidClassFiles(files: seq<string>, isFile: string -> bool): seq<string>
    decreases |files|
  {
    if |files| == 0 then []
    else
      var f := files[|files| - 1];
      ValidClassFiles(files[..|files| - 1], isFile) + (if isFile(f) && EndsWith(f, ".class") then [f] else [])
  }

  function MappingOf(req: Request): map<string, string> {
    if req.mapping.Some? then req.mapping.value else map[]
  }

  /**
   * The request mode: package roots before class directories before class
   * files; none of the three is a client error.
   */
  function SourcesOf(req: Request, isDir: string -> bool, isFile: string -> bool): Result<Sources> {
    if req.packageRoots.Some? then
      var roots := req.packageRoots.value;
      var dm := RootsInto(roots, isDir);
      Ok(Sources(dm.0, dm.1, [], if |roots| > 0 then Some(FileName(roots[0])) else None))
    else if req.classDirs.Some? then
      Ok(Sources(req.classDirs.value, MappingOf(req), [], None))
    else if req.classFiles.Some? then
      Ok(Sources([], MappingOf(req), ValidClassFiles(req.classFiles.value, isFile), None))
    else Err("Either packageRoots, classDirs, or classFiles is required")
  }

  /** The package name: the one the request gives, else the first package root's name. */
  function PackageNameOf(req: Request, s: Sources): Option<string> {
    if req.packageName.Some? then req.packageName else s.detected
  }

  /**
   * Every mode but package roots leaves the package name to the request;
   * with package roots the first root names the package, whether or not it
   * has a `classes` directory.
   */
  lemma PackageNamePrecedence(req: Request, isDir: string -> bool, isFile: string -> bool)
    requires SourcesOf(req, isDir, isFile).Ok?
    ensures var s := SourcesOf(req, isDir, isFile).value;
      (req.packageName.Some? ==> PackageNameOf(req, s) == req.packageName)
      && (req.packageName.None? && req.packageRoots.Some? && |req.packageRoots.value| > 0 ==>
            PackageNameOf(req, s) == Some(FileName(req.packageRoots.value[0])))
      && (req.packageName.None? && req.packageRoots.None? ==> PackageNameOf(req, s).None?)
  {
  }

  /** The request fails exactly when it names none of the three sources; an earlier mode hides the later ones. */
  lemma ModePrecedence(req: Request, isDir: string -> bool, isFile: string -> bool)
    ensures SourcesOf(req, isDir, isFile).Err? <==> req.packageRoots.None? && req.classDirs.None? && req.classFiles.None?
    ensures req.packageRoots.Some? ==> SourcesOf(req, isDir, isFile).value.classFiles == []
    ensures req.packageRoots.None? && req.classDirs.Some? ==>
              SourcesOf(req, isDir, isFile).value.classDirs == req.classDirs.value
    ensures req.packageRoots.None? && req.classDirs.None? && req.classFiles.Some? ==>
              SourcesOf(req, isDir, isFile).value.classDirs == []
  {
  }

  /** Every chosen class directory is an existing `classes` directory of a root, and every mapped one is chosen. */
  lemma {:induction false} RootsShape(roots: seq<string>, isDir: string -> bool)
    ensures var dm := RootsInto(roots, isDir);
      |dm.0| <= |roots|
      && (forall i :: 0 <= i < |dm.0| ==> isDir(dm.0[i]) && exists r :: r in roots && dm.0[i] == Resolve(r, "classes"))
      && (forall c :: c in dm.1 ==> c in dm.0 && isDir(dm.1[c]))
    decreases |roots|
  {
    if |roots| > 0 {
      var init := roots[..|roots| - 1];
      RootsShape(init, isDir);
      forall r | r in init ensures r in roots {
      }
    }
  }

  /** Every chosen class file exists and is named `.class`. */
  lemma {:induction false} ValidClassFilesShape(files: seq<string>, isFile: string -> bool)
    ensures var r := ValidClassFiles(files, isFile);
      |r| <= |files| && forall i :: 0 <= i < |r| ==> r[i] in files && isFile(r[i]) && EndsWith(r[i], ".class")
    decreases |files|
  {
    if |files| > 0 {
      var init := files[..|files| - 1];
      ValidClassFilesShape(init, isFile);
      forall f | f in init ensures f in files {
      }
    }
  }

  /** The class files below the chosen directories that exist, in directory order. */
  function WalkAll(dirs: seq<string>, isDir: string -> bool, walk: string -> seq<string>): seq<string>
    decreases |dirs|
  {
    if |dirs| == 0 then []
    else
      var d := dirs[|dirs| - 1];
      WalkAll(dirs[..|dirs| - 1], isDir, walk) + (if isDir(d) then ClassPaths(walk(d)) else [])
  }

  /** The walked paths named `.class`, in order. */
  function ClassPaths(paths: seq<string>): seq<string>
    decreases |paths|
  {
    if |paths| == 0 then []
    else
      var p := paths[|paths| - 1];
      ClassPaths(paths[..|paths| - 1]) + (if EndsWith(p, ".class") then [p] else [])
  }

  /** The class files to analyse: those listed, else those found below the directories. */
  function FilesOf(s: Sources, isDir: string -> bool, walk: string -> seq<string>): Result<seq<string>> {
    if |s.classFiles| > 0 then Ok(s.classFiles)
    else if |s.classDirs| == 0 then Err("No valid class directories or files found")
    else Ok(WalkAll(s.classDirs, isDir, walk))
  }

  /**
   * The limit keeps the first `limit` files. `subList` rejects a negative
   * bound, which the service does not catch.
   */
  function Limited(files: seq<string>, limit: Option<int>): Result<seq<string>> {
    if limit.Some? && |files| > limit.value then
      if limit.value < 0 then Err("subList: negative bound") else Ok(files[..limit.value])
    else Ok(files)
  }

  /** With a non-negative limit the files kept are the first `min(limit, |files|)`; without one, all. */
  lemma LimitedPrefix(files: seq<string>, limit: Option<int>)
    ensures limit.None? ==> Limited(files, limit) == Ok(files)
    ensures limit.Some? && limit.value >= 0 ==>
              Limited(files, limit).Ok? && var r := Limited(files, limit).value;
              |r| == (if limit.value < |files| then limit.value else |files|) && r == files[..|r|]
    ensures limit.Some? && limit.value < 0 ==> (Limited(files, limit).Err? <==> |files| > limit.value)
  {
  }

  // ---------------------------------------------------------------------
  // Grouping by class and method

  datatype CallData = CallData(toFqn: string, kind: EdgeKind, lineNumber: Option<int>)

  /** A method of the answer, with the types and calls the edges attached to it. */
  datatype MethodData = MethodData(fqn: string, lineNumber: int, modifiers: seq<Modifier>,
                                   hasOverride: bool, isTransactional: bool, returnType: Option<string>,
                                   arguments: seq<string>, calls: seq<CallData>)

  /**
   * A class of the answer. Its methods are positions in the list of all
   * method records, so that one record can be both in its class's list and
   * in the by-name map, as the one Java object is.
   */
  datatype ClassData = ClassData(fqn: string, nodeType: NodeType, modifiers: seq<Modifier>,
                                 isInterface: bool, isEnum: bool, isAbstract: bool,
                                 methods: seq<nat>, fields: seq<string>, inheritance: seq<(string, EdgeKind)>)

  /** The grouping state: classes by name, all method records, and method positions by name. */
  datatype Groups = Groups(classes: map<string, ClassData>, methods: seq<MethodData>, methodIndex: map<string, nat>)

  function NewClass(n: Node): ClassData
    requires n.ClassNode?
  {
    ClassData(n.fqn, n.classType, n.modifiers, n.isInterface, n.isEnum, n.isAbstract, [], [], [])
  }

  function NewMethod(n: Node): MethodData
    requires n.MethodNode?
  {
    MethodData(n.fqn, n.lineNumber, n.modifiers, n.hasOverride, n.isTransactional, None, [], [])
  }

  /** Step 1 for one node: a class, interface or enum in the domain becomes a class record. */
  function ClassStep(cs: map<string, ClassData>, n: Node, domains: Option<seq<string>>): map<string, ClassData> {
    if n.ClassNode? && DomainMatch(n.fqn, domains) then cs[n.fqn := NewClass(n)] else cs
  }

  function ClassesOf(nodes: seq<Node>, domains: Option<seq<string>>): map<string, ClassData>
    decreases |nodes|
  {
    if |nodes| == 0 then map[]
    else ClassStep(ClassesOf(nodes[..|nodes| - 1], domains), nodes[|nodes| - 1], domains)
  }

  /** The class of a method name: what precedes the last '.' before the first '('; none without a '('. */
  function ClassOfMethod(m: string): Option<string> {
    var paren := IndexOfChar(m, '(');
    var dot := LastIndexOfCharFrom(m, '.', paren);
    if dot == -1 then None else Some(m[..dot])
  }

  /** Step 2 for one node: a method whose class has a record joins it and the by-name map. */
  function MethodStep(g: Groups, n: Node): Groups {
    if n.MethodNode? then
      match ClassOfMethod(n.fqn)
      case None => g
      case Some(c) =>
        if c in g.classes then
          var k := |g.methods|;
          Groups(g.classes[c := g.classes[c].(methods := g.classes[c].methods + [k])],
                 g.methods + [NewMethod(n)], g.methodIndex[n.fqn := k])
        else g
    else g
  }

  function MethodsInto(g: Groups, nodes: seq<Node>): Groups
    decreases |nodes|
  {
    if |nodes| == 0 then g else MethodStep(MethodsInto(g, nodes[..|nodes| - 1]), nodes[|nodes| - 1])
  }

  /** Every method position in the by-name map is a record of that name. */
  predicate Indexed(g: Groups) {
    forall f :: f in g.methodIndex ==> g.methodIndex[f] < |g.methods| && g.methods[g.methodIndex[f]].fqn == f
  }

  /** Step 3 for one edge: it is attached to the class or method it names, or ignored. */
  function EdgeStep(g: Groups, e: Edge): Groups
    requires Indexed(g)
  {
    match e.edgeType
    case Inheritance =>
      if e.fromFqn in g.classes then
        var c := g.classes[e.fromFqn];
        g.(classes := g.classes[e.fromFqn := c.(inheritance := c.inheritance + [(e.toFqn, e.kind)])])
      else g
    case Call =>
      if e.fromFqn in g.methodIndex then
        var j := g.methodIndex[e.fromFqn];
        g.(methods := g.methods[j := g.methods[j].(calls := g.methods[j].calls + [CallData(e.toFqn, e.kind, e.lineNumber)])])
      else g
    case MemberOf =>
      if e.kind == KReturn then
        if e.toFqn in g.methodIndex then
          var j := g.methodIndex[e.toFqn];
          g.(methods := g.methods[j := g.methods[j].(returnType := Some(e.fromFqn))])
        else g
      else if e.kind == KArgument then
        if e.toFqn in g.methodIndex then
          var j := g.methodIndex[e.toFqn];
          g.(methods := g.methods[j := g.methods[j].(arguments := g.methods[j].arguments + [e.fromFqn])])
        else g
      else if e.kind == KClass then
        if e.toFqn in g.classes then
          var c := g.classes[e.toFqn];
          g.(classes := g.classes[e.toFqn := c.(fields := c.fields + [e.fromFqn])])
        else g
      else g
  }

  /** An edge changes no class name, no method position and no method name. */
  lemma {:induction false} EdgeStepKeeps(g: Groups, e: Edge)
    requires Indexed(g)
    ensures var h := EdgeStep(g, e);
      h.classes.Keys == g.classes.Keys && h.methodIndex == g.methodIndex && |h.methods| == |g.methods|
      && (forall k :: k in g.classes ==> h.classes[k].methods == g.classes[k].methods && h.classes[k].fqn == g.classes[k].fqn)
      && (forall j :: 0 <= j < |g.methods| ==> h.methods[j].fqn == g.methods[j].fqn)
      && Indexed(h)
  {
    match e.edgeType
    case Inheritance =>
      if e.fromFqn in g.classes {
        var c := g.classes[e.fromFqn];
        ClassUpdateKeeps(g, e.fromFqn, c.(inheritance := c.inheritance + [(e.toFqn, e.kind)]));
      }
    case Call =>
      if e.fromFqn in g.methodIndex {
        var j := g.methodIndex[e.fromFqn];
        MethodUpdateKeeps(g, j, g.methods[j].(calls := g.methods[j].calls + [CallData(e.toFqn, e.kind, e.lineNumber)]));
      }
    case MemberOf =>
      if e.kind == KReturn && e.toFqn in g.methodIndex {
        var j := g.methodIndex[e.toFqn];
        MethodUpdateKeeps(g, j, g.methods[j].(returnType := Some(e.fromFqn)));
      } else if e.kind == KArgument && e.toFqn in g.methodIndex {
        var j := g.methodIndex[e.toFqn];
        MethodUpdateKeeps(g, j, g.methods[j].(arguments := g.methods[j].arguments + [e.fromFqn]));
      } else if e.kind == KClass && e.toFqn in g.classes {
        var c := g.classes[e.toFqn];
        ClassUpdateKeeps(g, e.toFqn, c.(fields := c.fields + [e.fromFqn]));
      }
  }

  /** Replacing a class record by one with the same name and method positions keeps the shape. */
  lemma ClassUpdateKeeps(g: Groups, k: string, c: ClassData)
    requires Indexed(g) && k in g.classes && c.methods == g.classes[k].methods && c.fqn == g.classes[k].fqn
    ensures var h := g.(classes := g.classes[k := c]);
      h.classes.Keys == g.classes.Keys
      && (forall k' :: k' in g.classes ==> h.classes[k'].methods == g.classes[k'].methods && h.classes[k'].fqn == g.classes[k'].fqn)
      && Indexed(h)
  {
  }

  /** Replacing a method record by one with the same name keeps the index. */
  lemma MethodUpdateKeeps(g: Groups, j: nat, m: MethodData)
    requires Indexed(g) && j < |g.methods| && m.fqn == g.methods[j].fqn
    ensures var h := g.(methods := g.methods[j := m]);
      |h.methods| == |g.methods| && (forall i :: 0 <= i < |g.methods| ==> h.methods[i].fqn == g.methods[i].fqn)
      && Indexed(h)
  {
  }

  function EdgesInto(g: Groups, edges: seq<Edge>): (h: Groups)
    requires Indexed(g)
    ensures Indexed(h) && h.classes.Keys == g.classes.Keys && h.methodIndex == g.methodIndex && |h.methods| == |g.methods|
    decreases |edges|
  {
    if |edges| == 0 then g
    else
      var before := EdgesInto(g, edges[..|edges| - 1]);
      EdgeStepKeeps(before, edges[|edges| - 1]);
      EdgeStep(before, edges[|edges| - 1])
  }

  /**
   * The grouping invariant: class records sit under their own names, each
   * method position of a class is a record whose name's class is that
   * class, and the by-name map is one-to-one.
   */
  predicate Consistent(g: Groups) {
    Indexed(g)
    && (forall k :: k in g.classes ==> g.classes[k].fqn == k)
    && (forall k :: k in g.classes ==> Placed(g, k))
    && (forall f1, f2 :: f1 in g.methodIndex && f2 in g.methodIndex && f1 != f2 ==> g.methodIndex[f1] != g.methodIndex[f2])
  }

  /** Each method position of class `k` is a record whose name's class is `k`. */
  predicate Placed(g: Groups, k: string)
    requires k in g.classes
  {
    var js := g.classes[k].methods;
    forall i :: 0 <= i < |js| ==> js[i] < |g.methods| && ClassOfMethod(g.methods[js[i]].fqn) == Some(k)
  }

  /** Step 1 gives exactly the domain's classes, interfaces and enums, each with empty lists. */
  lemma {:induction false} ClassesOfShape(nodes: seq<Node>, domains: Option<seq<string>>, k: string)
    ensures var cs := ClassesOf(nodes, domains);
      (k in cs <==> exists i :: 0 <= i < |nodes| && nodes[i].ClassNode? && nodes[i].fqn == k && DomainMatch(k, domains))
      && (k in cs ==> cs[k].fqn == k && cs[k].methods == [] && cs[k].fields == [] && cs[k].inheritance == [])
    decreases |nodes|
  {
    if |nodes| > 0 {
      var init := nodes[..|nodes| - 1];
      ClassesOfShape(init, domains, k);
      if exists i :: 0 <= i < |nodes| && nodes[i].ClassNode? && nodes[i].fqn == k && DomainMatch(k, domains) {
        var i :| 0 <= i < |nodes| && nodes[i].ClassNode? && nodes[i].fqn == k && DomainMatch(k, domains);
        if i < |init| {
          assert init[i] == nodes[i];
        }
      }
      if exists i :: 0 <= i < |init| && init[i].ClassNode? && init[i].fqn == k && DomainMatch(k, domains) {
        var i :| 0 <= i < |init| && init[i].ClassNode? && init[i].fqn == k && DomainMatch(k, domains);
        assert nodes[i] == init[i];
      }
    }
  }

  /** Step 1's result is consistent, with no method yet. */
  lemma ClassesConsistent(nodes: seq<Node>, domains: Option<seq<string>>)
    ensures Consistent(Groups(ClassesOf(nodes, domains), [], map[]))
  {
    var cs := ClassesOf(nodes, domains);
    forall k | k in cs ensures cs[k].fqn == k && cs[k].methods == [] {
      ClassesOfShape(nodes, domains, k);
    }
  }

  /** Step 2 keeps the invariant, adds no class and leaves every record's lists empty. */
  lemma MethodStepConsistent(g: Groups, n: Node)
    requires Consistent(g)
    ensures var h := MethodStep(g, n);
      Consistent(h) && h.classes.Keys == g.classes.Keys && |g.methods| <= |h.methods|
      && h.methods[..|g.methods|] == g.methods
      && (forall k :: k in g.classes ==>
            h.classes[k].fields == g.classes[k].fields && h.classes[k].inheritance == g.classes[k].inheritance)
      && (n.MethodNode? && ClassOfMethod(n.fqn).Some? && ClassOfMethod(n.fqn).value in g.classes <==> |h.methods| == |g.methods| + 1)
  {
    var h := MethodStep(g, n);
    if n.MethodNode? && ClassOfMethod(n.fqn).Some? && ClassOfMethod(n.fqn).value in g.classes {
      var c := ClassOfMethod(n.fqn).value;
      var k := |g.methods|;
      assert h.methods == g.methods + [NewMethod(n)];
      assert h.methods[..k] == g.methods;
      forall f | f in h.methodIndex
        ensures h.methodIndex[f] < |h.methods| && h.methods[h.methodIndex[f]].fqn == f
      {
        if f != n.fqn {
          assert h.methodIndex[f] == g.methodIndex[f] < k;
          assert h.methods[g.methodIndex[f]] == g.methods[g.methodIndex[f]];
        }
      }
      forall f1, f2 | f1 in h.methodIndex && f2 in h.methodIndex && f1 != f2
        ensures h.methodIndex[f1] != h.methodIndex[f2]
      {
        if f1 != n.fqn && f2 != n.fqn {
        } else if f1 == n.fqn {
          assert h.methodIndex[f2] == g.methodIndex[f2] < k;
        } else {
          assert h.methodIndex[f1] == g.methodIndex[f1] < k;
        }
      }
      forall kk | kk in h.classes
        ensures Placed(h, kk)
      {
        assert kk in g.classes && Placed(g, kk);
        var js := h.classes[kk].methods;
        forall i | 0 <= i < |js|
          ensures js[i] < |h.methods| && ClassOfMethod(h.methods[js[i]].fqn) == Some(kk)
        {
          if kk == c && i == |js| - 1 {
          } else {
            assert js[i] == g.classes[kk].methods[i];
            assert h.methods[js[i]] == g.methods[js[i]];
          }
        }
      }
    }
  }

  lemma {:induction false} MethodsIntoConsistent(g: Groups, nodes: seq<Node>)
    requires Consistent(g)
    ensures var h := MethodsInto(g, nodes);
      Consistent(h) && h.classes.Keys == g.classes.Keys && |g.methods| <= |h.methods|
      && h.methods[..|g.methods|] == g.methods
      && (forall k :: k in g.classes ==>
            h.classes[k].fields == g.classes[k].fields && h.classes[k].inheritance == g.classes[k].inheritance)
    decreases |nodes|
  {
    if |nodes| > 0 {
      var mid := MethodsInto(g, nodes[..|nodes| - 1]);
      MethodsIntoConsistent(g, nodes[..|nodes| - 1]);
      MethodStepConsistent(mid, nodes[|nodes| - 1]);
      var h := MethodsInto(g, nodes);
      assert h.methods[..|mid.methods|] == mid.methods;
      assert h.methods[..|g.methods|] == h.methods[..|mid.methods|][..|g.methods|];
    }
  }

  /** Every record step 2 adds starts with no return type, arguments or calls. */
  lemma {:induction false} MethodsIntoFresh(g: Groups, nodes: seq<Node>, j: int)
    requires Consistent(g) && |g.methods| <= j < |MethodsInto(g, nodes).methods|
    ensures var m := MethodsInto(g, nodes).methods[j]; m.returnType.None? && m.arguments == [] && m.calls == []
    decreases |nodes|
  {
    var mid := MethodsInto(g, nodes[..|nodes| - 1]);
    MethodsIntoConsistent(g, nodes[..|nodes| - 1]);
    MethodStepConsistent(mid, nodes[|nodes| - 1]);
    if j < |mid.methods| {
      MethodsIntoFresh(g, nodes[..|nodes| - 1], j);
      assert MethodsInto(g, nodes).methods[..|mid.methods|] == mid.methods;
      assert MethodsInto(g, nodes).methods[j] == mid.methods[j];
    }
  }

  /** The inheritance edges leaving class `k`, in order. */
  function InheritanceOf(edges: seq<Edge>, k: string): seq<(string, EdgeKind)>
    decreases |edges|
  {
    if |edges| == 0 then []
    else
      var e := edges[|edges| - 1];
      InheritanceOf(edges[..|edges| - 1], k) + (if e.edgeType == Inheritance && e.fromFqn == k then [(e.toFqn, e.kind)] else [])
  }

  /** The field types of class `k`: the sources of its `class` member edges, in order. */
  function FieldsOf(edges: seq<Edge>, k: string): seq<string>
    decreases |edges|
  {
    if |edges| == 0 then []
    else
      var e := edges[|edges| - 1];
      FieldsOf(edges[..|edges| - 1], k) + (if e.edgeType == MemberOf && e.kind == KClass && e.toFqn == k then [e.fromFqn] else [])
  }

  /** The calls made by method `f`, in order. */
  function CallsOf(edges: seq<Edge>, f: string): seq<CallData>
    decreases |edges|
  {
    if |edges| == 0 then []
    else
      var e := edges[|edges| - 1];
      CallsOf(edges[..|edges| - 1], f) + (if e.edgeType == Call && e.fromFqn == f then [CallData(e.toFqn, e.kind, e.lineNumber)] else [])
  }

  /** The argument types of method `f`, in order. */
  function ArgumentsOf(edges: seq<Edge>, f: string): seq<string>
    decreases |edges|
  {
    if |edges| == 0 then []
    else
      var e := edges[|edges| - 1];
      ArgumentsOf(edges[..|edges| - 1], f) + (if e.edgeType == MemberOf && e.kind == KArgument && e.toFqn == f then [e.fromFqn] else [])
  }

  /** The return type of method `f`: the source of its last `return` edge. */
  function LastReturn(edges: seq<Edge>, f: string, initial: Option<string>): Option<string>
    decreases |edges|
  {
    if |edges| == 0 then initial
    else
      var e := edges[|edges| - 1];
      if e.edgeType == MemberOf && e.kind == KReturn && e.toFqn == f then Some(e.fromFqn)
      else LastReturn(edges[..|edges| - 1], f, initial)
  }

  /** One edge reaches class `k` only when it leaves it by inheritance or is one of its fields. */
  lemma ClassEdgeStep(g: Groups, e: Edge, k: string)
    requires Indexed(g) && k in g.classes
    ensures var h := EdgeStep(g, e);
      k in h.classes
      && h.classes[k].inheritance
           == g.classes[k].inheritance + (if e.edgeType == Inheritance && e.fromFqn == k then [(e.toFqn, e.kind)] else [])
      && h.classes[k].fields
           == g.classes[k].fields + (if e.edgeType == MemberOf && e.kind == KClass && e.toFqn == k then [e.fromFqn] else [])
      && h.classes[k].methods == g.classes[k].methods
  {
  }

  /** Each class gathers the inheritance and field edges that name it, in order, and nothing else. */
  lemma {:induction false} ClassEdgesGrouped(g: Groups, edges: seq<Edge>, k: string)
    requires Indexed(g) && k in g.classes
    ensures var h := EdgesInto(g, edges);
      h.classes[k].inheritance == g.classes[k].inheritance + InheritanceOf(edges, k)
      && h.classes[k].fields == g.classes[k].fields + FieldsOf(edges, k)
      && h.classes[k].methods == g.classes[k].methods
    decreases |edges|
  {
    if |edges| > 0 {
      var init := edges[..|edges| - 1];
      ClassEdgesGrouped(g, init, k);
      ClassEdgeStep(EdgesInto(g, init), edges[|edges| - 1], k);
    }
  }

  /** A record is live when its own name leads to it; an earlier record of a reused name is not. */
  predicate Live(g: Groups, j: nat)
    requires j < |g.methods|
  {
    g.methods[j].fqn in g.methodIndex && g.methodIndex[g.methods[j].fqn] == j
  }

  /** One edge reaches record `j` only when the record is live and the edge names it. */
  lemma MethodEdgeStep(g: Groups, e: Edge, j: nat)
    requires Indexed(g) && j < |g.methods|
    ensures var h := EdgeStep(g, e); var m := g.methods[j];
      j < |h.methods| && h.methods[j].fqn == m.fqn
      && if Live(g, j) then
           h.methods[j].calls
             == m.calls + (if e.edgeType == Call && e.fromFqn == m.fqn then [CallData(e.toFqn, e.kind, e.lineNumber)] else [])
           && h.methods[j].arguments
             == m.arguments + (if e.edgeType == MemberOf && e.kind == KArgument && e.toFqn == m.fqn then [e.fromFqn] else [])
           && h.methods[j].returnType
             == (if e.edgeType == MemberOf && e.kind == KReturn && e.toFqn == m.fqn then Some(e.fromFqn) else m.returnType)
         else h.methods[j] == m
  {
  }

  /**
   * A live record gathers its method's calls and argument types in order,
   * and the last return type given; a record that is not live gets nothing.
   */
  lemma {:induction false} MethodEdgesGrouped(g: Groups, edges: seq<Edge>, j: nat)
    requires Indexed(g) && j < |g.methods|
    ensures var h := EdgesInto(g, edges); var m := g.methods[j];
      j < |h.methods| && h.methods[j].fqn == m.fqn
      && if Live(g, j) then
           h.methods[j].calls == m.calls + CallsOf(edges, m.fqn)
           && h.methods[j].arguments == m.arguments + ArgumentsOf(edges, m.fqn)
           && h.methods[j].returnType == LastReturn(edges, m.fqn, m.returnType)
         else h.methods[j] == m
    decreases |edges|
  {
    if |edges| > 0 {
      var init := edges[..|edges| - 1];
      MethodEdgesGrouped(g, init, j);
      var before := EdgesInto(g, init);
      var e := edges[|edges| - 1];
      assert Live(before, j) == Live(g, j);
      MethodEdgeStep(before, e, j);
      assert EdgesInto(g, edges) == EdgeStep(before, e);
      var m := g.methods[j];
      var f := m.fqn;
      if Live(g, j) {
        var newCalls := if e.edgeType == Call && e.fromFqn == f then [CallData(e.toFqn, e.kind, e.lineNumber)] else [];
        var newArgs := if e.edgeType == MemberOf && e.kind == KArgument && e.toFqn == f then [e.fromFqn] else [];
        assert CallsOf(edges, f) == CallsOf(init, f) + newCalls;
        assert ArgumentsOf(edges, f) == ArgumentsOf(init, f) + newArgs;
        AppendAssoc(m.calls, CallsOf(init, f), newCalls);
        AppendAssoc(m.arguments, ArgumentsOf(init, f), newArgs);
      }
    }
  }

  /** The grouping of one `/analyze` call, kept in the three structures the service mutates. */
  class Grouping {
    var classes: map<string, ClassData>
    var methods: seq<MethodData>
    var methodIndex: map<string, nat>

    function State(): Groups
      reads this
    {
      Groups(classes, methods, methodIndex)
    }

    constructor ()
      ensures State() == Groups(map[], [], map[])
    {
      classes, methods, methodIndex := map[], [], map[];
    }

    /** Step 1: a record for each class, interface and enum node in the domain. */
    method AddClasses(nodes: seq<Node>, domains: Option<seq<string>>)
      modifies this
      ensures classes == ClassesOf(nodes, domains) && methods == old(methods) && methodIndex == old(methodIndex)
    {
      classes := map[];
      for i := 0 to |nodes|
        invariant classes == ClassesOf(nodes[..i], domains)
        invariant methods == old(methods) && methodIndex == old(methodIndex)
      {
        assert nodes[..i + 1][..i] == nodes[..i];
        var n := nodes[i];
        if n.ClassNode? {
          var admitted := MatchesDomainFilter(n.fqn, domains);
          if admitted {
            classes := classes[n.fqn := NewClass(n)];
          }
        }
      }
      assert nodes[..|nodes|] == nodes;
    }

    /** Step 2: each method node joins its class's record, when its class has one. */
    method AddMethods(nodes: seq<Node>)
      modifies this
      ensures State() == MethodsInto(old(State()), nodes)
    {
      ghost var start := State();
      for i := 0 to |nodes|
        invariant State() == MethodsInto(start, nodes[..i])
      {
        assert nodes[..i + 1][..i] == nodes[..i];
        var n := nodes[i];
        if n.MethodNode? {
          var paren := IndexOfChar(n.fqn, '(');
          var dot := LastIndexOfCharFrom(n.fqn, '.', paren);
          if dot != -1 {
            var c := n.fqn[..dot];
            if c in classes {
              var k := |methods|;
              classes := classes[c := classes[c].(methods := classes[c].methods + [k])];
              methods := methods + [NewMethod(n)];
              methodIndex := methodIndex[n.fqn := k];
            }
          }
        }
      }
      assert nodes[..|nodes|] == nodes;
    }

    /** Step 3: each edge is attached to the class or method it names. */
    method AddEdges(edges: seq<Edge>)
      requires Indexed(State())
      modifies this
      ensures State() == EdgesInto(old(State()), edges)
    {
      ghost var start := State();
      for i := 0 to |edges|
        invariant Indexed(start) && Indexed(State())
        invariant State() == EdgesInto(start, edges[..i])
      {
        assert edges[..i + 1][..i] == edges[..i];
        EdgeStepKeeps(State(), edges[i]);
        var g := EdgeStep(State(), edges[i]);
        classes, methods, methodIndex := g.classes, g.methods, g.methodIndex;
      }
      assert edges[..|edges| - 0] == edges;
    }
  }

  /** A class of the answer, its methods spelled out. */
  datatype ClassOut = ClassOut(data: ClassData, methods: seq<MethodData>)

  function Spelled(g: Groups): map<string, ClassOut>
    requires Consistent(g)
  {
    map k | k in g.classes :: ClassOut(g.classes[k], MethodsAt(g, k))
  }

  /** The method records of class `k`, in the order they joined it. */
  function MethodsAt(g: Groups, k: string): seq<MethodData>
    requires Consistent(g) && k in g.classes
  {
    var js := g.classes[k].methods;
    assert Placed(g, k);
    seq(|js|, i requires 0 <= i < |js| => g.methods[js[i]])
  }

  /** What one class file gives: the visitor's nodes and edges, or nothing when it fails. */
  datatype Analysis = Analysis(nodes: seq<Node>, edges: seq<Edge>)

  function NodesOf(files: seq<string>, analyse: string -> Option<Analysis>): seq<Node>
    decreases |files|
  {
    if |files| == 0 then []
    else
      var a := analyse(files[|files| - 1]);
      NodesOf(files[..|files| - 1], analyse) + (if a.Some? then a.value.nodes else [])
  }

  function EdgesOf(files: seq<string>, analyse: string -> Option<Analysis>): seq<Edge>
    decreases |files|
  {
    if |files| == 0 then []
    else
      var a := analyse(files[|files| - 1]);
      EdgesOf(files[..|files| - 1], analyse) + (if a.Some? then a.value.edges else [])
  }

  /** The grouping the three steps produce from the nodes and edges. */
  function GroupsOf(nodes: seq<Node>, edges: seq<Edge>, domains: Option<seq<string>>): (g: Groups)
    ensures Consistent(g)
  {
    var g0 := Groups(ClassesOf(nodes, domains), [], map[]);
    ClassesConsistent(nodes, domains);
    MethodsIntoConsistent(g0, nodes);
    var g1 := MethodsInto(g0, nodes);
    var g2 := EdgesInto(g1, edges);
    GroupsConsistent(g1, edges);
    g2
  }

  lemma {:induction false} GroupsConsistent(g: Groups, edges: seq<Edge>)
    requires Consistent(g)
    ensures Consistent(EdgesInto(g, edges))
    decreases |edges|
  {
    if |edges| > 0 {
      var before := EdgesInto(g, edges[..|edges| - 1]);
      GroupsConsistent(g, edges[..|edges| - 1]);
      EdgeStepKeeps(before, edges[|edges| - 1]);
      var h := EdgesInto(g, edges);
      forall k | k in h.classes
        ensures Placed(h, k)
      {
        assert Placed(before, k);
      }
    }
  }

  /**
   * The answer has a class exactly for each class, interface or enum node
   * in the domain, holding the inheritance edges leaving it and the field
   * edges naming it, in order.
   */
  lemma GroupedClasses(nodes: seq<Node>, edges: seq<Edge>, domains: Option<seq<string>>, k: string)
    ensures var out := Spelled(GroupsOf(nodes, edges, domains));
      (k in out <==> exists i :: 0 <= i < |nodes| && nodes[i].ClassNode? && nodes[i].fqn == k && DomainMatch(k, domains))
      && (k in out ==> out[k].data.fqn == k && out[k].data.inheritance == InheritanceOf(edges, k)
                       && out[k].data.fields == FieldsOf(edges, k))
  {
    var g0 := Groups(ClassesOf(nodes, domains), [], map[]);
    ClassesOfShape(nodes, domains, k);
    ClassesConsistent(nodes, domains);
    MethodsIntoConsistent(g0, nodes);
    var g1 := MethodsInto(g0, nodes);
    if k in g0.classes {
      ClassEdgesGrouped(g1, edges, k);
    }
  }

  /**
   * Every method listed under class `k` is named in `k`; when it is the
   * last method of its name, it holds exactly the calls it makes, the
   * argument types and the last return type the edges give it.
   */
  lemma GroupedMethods(nodes: seq<Node>, edges: seq<Edge>, domains: Option<seq<string>>, k: string, i: nat)
    requires k in Spelled(GroupsOf(nodes, edges, domains)) && i < |Spelled(GroupsOf(nodes, edges, domains))[k].methods|
    ensures var g := GroupsOf(nodes, edges, domains); var m := Spelled(g)[k].methods[i];
      ClassOfMethod(m.fqn) == Some(k)
      && (m.fqn in g.methodIndex && g.methodIndex[m.fqn] == g.classes[k].methods[i] ==>
            m.calls == CallsOf(edges, m.fqn) && m.arguments == ArgumentsOf(edges, m.fqn)
            && m.returnType == LastReturn(edges, m.fqn, None))
  {
    var g0 := Groups(ClassesOf(nodes, domains), [], map[]);
    ClassesConsistent(nodes, domains);
    MethodsIntoConsistent(g0, nodes);
    var g1 := MethodsInto(g0, nodes);
    var g := GroupsOf(nodes, edges, domains);
    assert g == EdgesInto(g1, edges);
    assert Placed(g, k);
    var j := g.classes[k].methods[i];
    assert Spelled(g)[k].methods[i] == g.methods[j];
    assert j < |g1.methods|;
    MethodEdgesGrouped(g1, edges, j);
    MethodsIntoFresh(g0, nodes, j);
    var m := g.methods[j];
    assert ClassOfMethod(m.fqn) == Some(k);
    if m.fqn in g.methodIndex && g.methodIndex[m.fqn] == j {
      assert Live(g1, j);
    }
  }

  /**
   * Conversely, every method node whose class is in the answer is listed
   * under that class.
   */
  lemma GroupedMethodsComplete(nodes: seq<Node>, edges: seq<Edge>, domains: Option<seq<string>>, k: string, i: nat)
    requires i < |nodes| && nodes[i].MethodNode? && ClassOfMethod(nodes[i].fqn) == Some(k)
    requires k in Spelled(GroupsOf(nodes, edges, domains))
    ensures var out := Spelled(GroupsOf(nodes, edges, domains))[k].methods;
      exists p :: 0 <= p < |out| && out[p].fqn == nodes[i].fqn
  {
    var g0 := Groups(ClassesOf(nodes, domains), [], map[]);
    ClassesConsistent(nodes, domains);
    MethodsIntoConsistent(g0, nodes);
    var g1 := MethodsInto(g0, nodes);
    var g := GroupsOf(nodes, edges, domains);
    assert g == EdgesInto(g1, edges);
    MethodsIntoListed(g0, nodes, i, k);
    EdgesIntoKeepsLists(g1, edges);
    var p :| 0 <= p < |g1.classes[k].methods| && g1.classes[k].methods[p] < |g1.methods|
             && g1.methods[g1.classes[k].methods[p]].fqn == nodes[i].fqn;
    assert Spelled(g)[k].methods[p] == g.methods[g.classes[k].methods[p]];
  }

  /** Method `f` is at some position of class `c`'s list. */
  predicate Listed(g: Groups, c: string, f: string) {
    c in g.classes
    && exists p :: 0 <= p < |g.classes[c].methods| && g.classes[c].methods[p] < |g.methods| && g.methods[g.classes[c].methods[p]].fqn == f
  }

  /** A method step lists the method under its class and keeps every earlier listing. */
  lemma MethodStepListed(g: Groups, n: Node, c: string, f: string)
    requires Consistent(g)
    ensures Listed(g, c, f) ==> Listed(MethodStep(g, n), c, f)
    ensures n.MethodNode? && ClassOfMethod(n.fqn) == Some(c) && c in g.classes ==> Listed(MethodStep(g, n), c, n.fqn)
  {
    var h := MethodStep(g, n);
    if n.MethodNode? && ClassOfMethod(n.fqn).Some? && ClassOfMethod(n.fqn).value in g.classes {
      var d := ClassOfMethod(n.fqn).value;
      var k := |g.methods|;
      assert h.methods == g.methods + [NewMethod(n)];
      if Listed(g, c, f) {
        var p :| 0 <= p < |g.classes[c].methods| && g.classes[c].methods[p] < |g.methods|
                 && g.methods[g.classes[c].methods[p]].fqn == f;
        assert h.classes[c].methods[p] == g.classes[c].methods[p];
        assert h.methods[g.classes[c].methods[p]] == g.methods[g.classes[c].methods[p]];
      }
      if ClassOfMethod(n.fqn) == Some(c) {
        var q := |h.classes[c].methods| - 1;
        assert h.classes[c].methods[q] == k;
      }
    }
  }

  lemma {:induction false} MethodsIntoListed(g: Groups, nodes: seq<Node>, i: nat, c: string)
    requires Consistent(g) && c in g.classes
    requires i < |nodes| && nodes[i].MethodNode? && ClassOfMethod(nodes[i].fqn) == Some(c)
    ensures Listed(MethodsInto(g, nodes), c, nodes[i].fqn)
    decreases |nodes|
  {
    var init := nodes[..|nodes| - 1];
    var mid := MethodsInto(g, init);
    MethodsIntoConsistent(g, init);
    if i < |init| {
      assert init[i] == nodes[i];
      MethodsIntoListed(g, init, i, c);
    }
    MethodStepListed(mid, nodes[|nodes| - 1], c, nodes[i].fqn);
  }

  /** The edge pass leaves every class's method list and every method's name alone. */
  lemma {:induction false} EdgesIntoKeepsLists(g: Groups, edges: seq<Edge>)
    requires Indexed(g)
    ensures var h := EdgesInto(g, edges);
      (forall k :: k in g.classes ==> h.classes[k].methods == g.classes[k].methods)
      && (forall j :: 0 <= j < |g.methods| ==> h.methods[j].fqn == g.methods[j].fqn)
    decreases |edges|
  {
    if |edges| > 0 {
      var before := EdgesInto(g, edges[..|edges| - 1]);
      EdgesIntoKeepsLists(g, edges[..|edges| - 1]);
      EdgeStepKeeps(before, edges[|edges| - 1]);
    }
  }

  /** The answer of `/analyze`: an error with its status, or the classes by name. */
  datatype AnalyzeResponse = AnalyzeError(status: int, error: string) | Classes(classes: map<string, ClassOut>)

  /** The files `/analyze` hands to the visitor, or the error that stops it first. */
  function ChosenFiles(req: Request, isDir: string -> bool, isFile: string -> bool, walk: string -> seq<string>): Result<seq<string>> {
    match SourcesOf(req, isDir, isFile)
    case Err(e) => Err(e)
    case Ok(s) =>
      match FilesOf(s, isDir, walk)
      case Err(e) => Err(e)
      case Ok(files) => Limited(files, req.limit)
  }

  /**
   * `/analyze`: choose the files, analyse each (a failing file is skipped),
   * and group the nodes and edges of all of them.
   */
  method Analyze(req: Request, isDir: string -> bool, isFile: string -> bool, walk: string -> seq<string>,
                 analyse: string -> Option<Analysis>) returns (resp: AnalyzeResponse)
    ensures match ChosenFiles(req, isDir, isFile, walk)
      case Err(e) => resp == AnalyzeError(if SourcesOf(req, isDir, isFile).Ok? && req.limit.Some? && req.limit.value < 0
                                           && FilesOf(SourcesOf(req, isDir, isFile).value, isDir, walk).Ok? then 500 else 400, e)
      case Ok(files) =>
        resp == Classes(Spelled(GroupsOf(NodesOf(files, analyse), EdgesOf(files, analyse), req.domains)))
  {
    var chosen := ChosenFiles(req, isDir, isFile, walk);
    if chosen.Err? {
      var status := if SourcesOf(req, isDir, isFile).Ok? && req.limit.Some? && req.limit.value < 0
                       && FilesOf(SourcesOf(req, isDir, isFile).value, isDir, walk).Ok? then 500 else 400;
      return AnalyzeError(status, chosen.error);
    }
    var files := chosen.value;
    var nodes: seq<Node> := [];
    var edges: seq<Edge> := [];
    for i := 0 to |files|
      invariant nodes == NodesOf(files[..i], analyse) && edges == EdgesOf(files[..i], analyse)
    {
      assert files[..i + 1][..i] == files[..i];
      var a := analyse(files[i]);
      if a.Some? {
        nodes := nodes + a.value.nodes;
        edges := edges + a.value.edges;
      }
    }
    assert files[..|files|] == files;
    var grouping := new Grouping();
    grouping.AddClasses(nodes, req.domains);
    ClassesConsistent(nodes, req.domains);
    grouping.AddMethods(nodes);
    MethodsIntoConsistent(Groups(ClassesOf(nodes, req.domains), [], map[]), nodes);
    grouping.AddEdges(edges);
    GroupsConsistent(MethodsInto(Groups(ClassesOf(nodes, req.domains), [], map[]), nodes), edges);
    resp := Classes(Spelled(grouping.State()));
  }

  // ---------------------------------------------------------------------
  // The `/index` endpoint

  /** One symbol of an indexed class file; class nodes have no line. */
  datatype Symbol = Symbol(fqn: string, nodeType: NodeType, line: Option<int>, isEntity: bool)

  datatype IndexResult = Skipped | Symbols(classFqn: Option<string>, isEntity: bool, symbols: seq<Symbol>)

  /** The first pass: an enum stops everything, the first class or interface names the file's class. */
  datatype Scan = SawEnum | SawClass(fqn: string, isEntity: bool) | SawNone

  function ScanNodes(nodes: seq<Node>): Scan
    decreases |nodes|
  {
    if |nodes| == 0 then SawNone
    else if TypeOf(nodes[0]) == NEnum then SawEnum
    else if nodes[0].ClassNode? then SawClass(nodes[0].fqn, nodes[0].isEntity)
    else ScanNodes(nodes[1..])
  }

  function LineOf(n: Node): Option<int> {
    if n.MethodNode? then Some(n.lineNumber) else None
  }

  function SymbolsOf(nodes: seq<Node>, isEntity: bool): seq<Symbol> {
    seq(|nodes|, i requires 0 <= i < |nodes| => Symbol(nodes[i].fqn, TypeOf(nodes[i]), LineOf(nodes[i]), isEntity))
  }

  function IndexOf(nodes: seq<Node>): IndexResult {
    match ScanNodes(nodes)
    case SawEnum => Skipped
    case SawClass(f, e) => Symbols(Some(f), e, SymbolsOf(nodes, e))
    case SawNone => Symbols(None, false, SymbolsOf(nodes, false))
  }

  /** `index`'s two passes over the visitor's nodes. */
  method IndexNodes(nodes: seq<Node>) returns (r: IndexResult)
    ensures r == IndexOf(nodes)
  {
    var classFqn: Option<string> := None;
    var isEntity := false;
    var i := 0;
    while i < |nodes|
      invariant 0 <= i <= |nodes|
      invariant ScanNodes(nodes) == ScanNodes(nodes[i..])
    {
      assert nodes[i..][1..] == nodes[i + 1..];
      var n := nodes[i];
      if TypeOf(n) == NEnum {
        return Skipped;
      }
      if n.ClassNode? {
        classFqn := Some(n.fqn);
        isEntity := n.isEntity;
        break;
      }
      i := i + 1;
    }
    assert classFqn.None? ==> ScanNodes(nodes) == SawNone;
    var symbols: seq<Symbol> := [];
    for j := 0 to |nodes|
      invariant symbols == SymbolsOf(nodes[..j], isEntity)
    {
      symbols := symbols + [Symbol(nodes[j].fqn, TypeOf(nodes[j]), LineOf(nodes[j]), isEntity)];
    }
    assert nodes[..|nodes|] == nodes;
    r := Symbols(classFqn, isEntity, symbols);
  }

  /** Every node becomes one symbol, in order, and every symbol carries the class's entity flag. */
  lemma IndexSymbols(nodes: seq<Node>)
    ensures IndexOf(nodes).Symbols? ==>
      var r := IndexOf(nodes);
      |r.symbols| == |nodes|
      && forall i :: 0 <= i < |nodes| ==> r.symbols[i].fqn == nodes[i].fqn && r.symbols[i].isEntity == r.isEntity
  {
  }

  /**
   * On the visitor's output, whose first node is the class's: an enum is
   * skipped, and anything else is indexed under its dotted name with its
   * entity flag.
   */
  lemma IndexOfVisited(access: bv32, name: string, superName: Option<string>, rest: seq<Node>)
    ensures var nodes := [ClassNodeOf(access, name, superName)] + rest;
      (ClassTypeOf(access) == NEnum <==> IndexOf(nodes) == Skipped)
      && (ClassTypeOf(access) != NEnum ==>
            IndexOf(nodes).classFqn == Some(Dotted(name)) && IndexOf(nodes).isEntity == IsEntity(Dotted(name), superName))
  {
  }

  datatype IndexResponse = IndexError(status: int, error: string) | IndexDone(result: IndexResult)

  /**
   * `index`: the request must name an existing `.class` file; a visitor
   * failure is a server error carrying the failure's message.
   */
  method Index(classFile: Option<string>, isFile: string -> bool, analyse: string -> Result<seq<Node>>)
    returns (resp: IndexResponse)
    ensures classFile.None? ==> resp == IndexError(400, "classFile is required")
    ensures classFile.Some? && !(isFile(classFile.value) && EndsWith(classFile.value, ".class")) ==>
              resp == IndexError(400, "Invalid class file: " + classFile.value)
    ensures classFile.Some? && isFile(classFile.value) && EndsWith(classFile.value, ".class") ==>
              resp == (match analyse(classFile.value)
                       case Err(message) => IndexError(500, "Failed to index " + classFile.value + ": " + message)
                       case Ok(nodes) => IndexDone(IndexOf(nodes)))
  {
    if classFile.None? {
      return IndexError(400, "classFile is required");
    }
    var path := classFile.value;
    if !isFile(path) || !EndsWith(path, ".class") {
      return IndexError(400, "Invalid class file: " + path);
    }
    var nodes := analyse(path);
    if nodes.Err? {
      return IndexError(500, "Failed to index " + path + ": " + nodes.error);
    }
    var r := IndexNodes(nodes.value);
    resp := IndexDone(r);
  }

  // ---------------------------------------------------------------------
  // Method names, across the two files

  /**
   * The grouping finds a method's class again: for a method the visitor
   * named, the class before the name is recovered, provided neither the
   * class nor the method's own name contains a '(' and the name has no '.'.
   */
  lemma ClassOfVisitedMethod(cls: string, name: string, desc: MethodType)
    requires '(' !in cls && '(' !in name && '.' !in name
    ensures ClassOfMethod(MethodFqnOf(cls, name, desc)) == Some(cls)
  {
    var m := MethodFqnOf(cls, name, desc);
    var sig := SignatureOf(desc.args);
    assert m == cls + "." + name + sig;
    var paren := IndexOfChar(m, '(');
    assert m[|cls| + 1 + |name|] == '(';
    assert '(' !in m[..|cls| + 1 + |name|] by {
      assert m[..|cls| + 1 + |name|] == cls + "." + name;
    }
    assert paren == |cls| + 1 + |name|;
    assert m[|cls|] == '.';
    var dot := LastIndexOfCharFrom(m, '.', paren);
    assert dot >= |cls|;
    assert m[..|cls|] == cls;
  }
}
