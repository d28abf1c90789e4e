/**
 * The call-graph store of `Extracteurs/SQLiteStorage.py`: a `nodes` table
 * keyed by FQN, an `edges` table that only grows and has no uniqueness key,
 * and an `edge_annotations` table that refers to edges by id.
 *
 * The tables are the fields of `Store`. SQL statements become pure
 * functions on those fields (`InsertRow`, `ReplaceRow`, `IgnoreRows`, ...),
 * and the Python methods become Dafny methods whose `ensures` express the
 * new state through those functions. Edge ids come from an AUTOINCREMENT
 * column. Nothing deletes single edges, and dropping the table resets its
 * sequence, so the id of an edge is its 1-based position in `edges`.
 */
module GraphStore {
  import opened StringUtil
  import opened Common

  /** A row of `nodes`; its primary key `fqn` is the key of the map that holds it. */
  datatype Node = Node(nodeType: string, name: string, signature: Option<string>, uri: string)

  /** A node dictionary passed by a caller; a missing key reads as `None`. */
  datatype NodeInput = NodeInput(fqn: Option<string>, nodeType: Option<string>, name: Option<string>,
                                 signature: Option<string>, uri: Option<string>)

  /** The NOT NULL columns of `nodes` are `fqn`, `node_type`, `name` and `uri`. */
  predicate NodeRowOk(n: NodeInput) {
    n.fqn.Some? && n.nodeType.Some? && n.name.Some? && n.uri.Some?
  }

  function ToNode(n: NodeInput): Node
    requires NodeRowOk(n)
  {
    Node(n.nodeType.value, n.name.value, n.signature, n.uri.value)
  }

  /** A row of `edges` (its id is its position, see above). */
  datatype Edge = Edge(edgeType: string, fromFqn: string, fromUri: string,
                       toFqn: string, toUri: string, kind: Option<string>)

  /** An edge dictionary passed by a caller, with its `annotations` list. */
  datatype EdgeInput = EdgeInput(edgeType: Option<string>, fromFqn: Option<string>, fromUri: Option<string>,
                                 toFqn: Option<string>, toUri: Option<string>, kind: Option<string>,
                                 annotations: seq<string>)

  /** Every column of `edges` except `kind` is NOT NULL. */
  predicate EdgeRowOk(e: EdgeInput) {
    e.edgeType.Some? && e.fromFqn.Some? && e.fromUri.Some? && e.toFqn.Some? && e.toUri.Some?
  }

  function ToEdge(e: EdgeInput): Edge
    requires EdgeRowOk(e)
  {
    Edge(e.edgeType.value, e.fromFqn.value, e.fromUri.value, e.toFqn.value, e.toUri.value, e.kind)
  }

  /** A row of `edge_annotations`. */
  datatype Annotation = Annotation(edgeId: int, annotation: string)

  // ---------------------------------------------------------------------
  // The SQL statements on the nodes table

  /** Plain `INSERT`: `None` when it raises IntegrityError (duplicate key or NULL column). */
  function InsertRow(m: map<string, Node>, n: NodeInput): (r: Option<map<string, Node>>)
  {
    if NodeRowOk(n) && n.fqn.value !in m then Some(m[n.fqn.value := ToNode(n)]) else None
  }

  /** `INSERT OR REPLACE`: `None` when a NOT NULL column is NULL (the statement aborts). */
  function ReplaceRow(m: map<string, Node>, n: NodeInput): (r: Option<map<string, Node>>)
  {
    if NodeRowOk(n) then Some(m[n.fqn.value := ToNode(n)]) else None
  }

  /** `INSERT OR IGNORE`: a row that would violate a constraint is silently skipped. */
  function IgnoreRow(m: map<string, Node>, n: NodeInput): map<string, Node>
  {
    if NodeRowOk(n) && n.fqn.value !in m then m[n.fqn.value := ToNode(n)] else m
  }

  /** `executemany` of `INSERT OR IGNORE` over `rows`, in order. */
  function IgnoreRows(m: map<string, Node>, rows: seq<NodeInput>): map<string, Node>
    decreases |rows|
  {
    if |rows| == 0 then m else IgnoreRows(IgnoreRow(m, rows[0]), rows[1..])
  }

  /** The `rowcount` of that `executemany`: the number of rows actually inserted. */
  function IgnoreRowCount(m: map<string, Node>, rows: seq<NodeInput>): nat
    decreases |rows|
  {
    if |rows| == 0 then 0
    else (if IgnoreRow(m, rows[0]) != m then 1 else 0) + IgnoreRowCount(IgnoreRow(m, rows[0]), rows[1..])
  }

  /**
   * `executemany` of `INSERT OR REPLACE`: the rows before the first NULL
   * column are applied, then the statement raises.
   */
  function ReplaceRows(m: map<string, Node>, rows: seq<NodeInput>): (r: (map<string, Node>, bool))
    decreases |rows|
  {
    if |rows| == 0 then (m, true)
    else match ReplaceRow(m, rows[0])
      case None => (m, false)
      case Some(m1) => ReplaceRows(m1, rows[1..])
  }

  /** `INSERT OR IGNORE` never changes a row that is already stored. */
  lemma {:induction false} IgnoreRowsKeepsExisting(m: map<string, Node>, rows: seq<NodeInput>)
    ensures m.Keys <= IgnoreRows(m, rows).Keys
    ensures forall k :: k in m ==> IgnoreRows(m, rows)[k] == m[k]
    decreases |rows|
  {
    if |rows| > 0 {
      IgnoreRowsKeepsExisting(IgnoreRow(m, rows[0]), rows[1..]);
    }
  }

  /**
   * After `INSERT OR IGNORE`, every row with its NOT NULL columns set is
   * present, and a key is new only if some row carried it; the count of
   * inserted rows is the number of new keys.
   */
  lemma IgnoreRowsContents(m: map<string, Node>, rows: seq<NodeInput>)
    ensures forall i :: 0 <= i < |rows| && NodeRowOk(rows[i]) ==> rows[i].fqn.value in IgnoreRows(m, rows)
    ensures forall k :: k in IgnoreRows(m, rows) && k !in m ==>
              exists i :: 0 <= i < |rows| && NodeRowOk(rows[i]) && rows[i].fqn == Some(k)
    ensures |IgnoreRows(m, rows).Keys| == |m.Keys| + IgnoreRowCount(m, rows)
    ensures IgnoreRowCount(m, rows) <= |rows|
  {
    IgnoreRowsPresent(m, rows);
    IgnoreRowsNew(m, rows);
    IgnoreRowsCount(m, rows);
  }

  /** Every row with its NOT NULL columns set is present afterwards. */
  lemma {:induction false} IgnoreRowsPresent(m: map<string, Node>, rows: seq<NodeInput>)
    ensures forall i :: 0 <= i < |rows| && NodeRowOk(rows[i]) ==> rows[i].fqn.value in IgnoreRows(m, rows)
    decreases |rows|
  {
    if |rows| > 0 {
      var m1 := IgnoreRow(m, rows[0]);
      IgnoreRowsPresent(m1, rows[1..]);
      IgnoreRowsKeepsExisting(m1, rows[1..]);
      var r := IgnoreRows(m, rows);
      assert r == IgnoreRows(m1, rows[1..]);
      forall i | 0 <= i < |rows| && NodeRowOk(rows[i]) ensures rows[i].fqn.value in r {
        if i > 0 { assert rows[1..][i - 1] == rows[i]; }
      }
    }
  }

  /** A key is new only if some complete row carried it. */
  lemma {:induction false} IgnoreRowsNew(m: map<string, Node>, rows: seq<NodeInput>)
    ensures forall k :: k in IgnoreRows(m, rows) && k !in m ==>
              exists i :: 0 <= i < |rows| && NodeRowOk(rows[i]) && rows[i].fqn == Some(k)
    decreases |rows|
  {
    if |rows| > 0 {
      var m1 := IgnoreRow(m, rows[0]);
      IgnoreRowsNew(m1, rows[1..]);
      var r := IgnoreRows(m, rows);
      assert r == IgnoreRows(m1, rows[1..]);
      forall k | k in r && k !in m
        ensures exists i :: 0 <= i < |rows| && NodeRowOk(rows[i]) && rows[i].fqn == Some(k)
      {
        if k in m1 {
          assert NodeRowOk(rows[0]) && rows[0].fqn == Some(k);
        } else {
          var j :| 0 <= j < |rows[1..]| && NodeRowOk(rows[1..][j]) && rows[1..][j].fqn == Some(k);
          assert rows[j + 1] == rows[1..][j];
        }
      }
    }
  }

  /** The count of inserted rows is the number of new keys, and at most the number of rows. */
  lemma {:induction false} IgnoreRowsCount(m: map<string, Node>, rows: seq<NodeInput>)
    ensures |IgnoreRows(m, rows).Keys| == |m.Keys| + IgnoreRowCount(m, rows)
    ensures IgnoreRowCount(m, rows) <= |rows|
    decreases |rows|
  {
    if |rows| > 0 {
      var m1 := IgnoreRow(m, rows[0]);
      IgnoreRowsCount(m1, rows[1..]);
      assert IgnoreRows(m, rows) == IgnoreRows(m1, rows[1..]);
      if NodeRowOk(rows[0]) && rows[0].fqn.value !in m {
        assert m1.Keys == m.Keys + {rows[0].fqn.value};
        assert m1 != m by { assert rows[0].fqn.value in m1; }
      } else {
        assert m1 == m;
      }
    }
  }

  // ---------------------------------------------------------------------
  // Stubs

  /** The `name` of a stub: `fqn.split('.')[-1]` if the FQN has a '.', else the FQN. */
  function StubName(fqn: string): (r: string)
  {
    if '.' in fqn then LastPiece(fqn, '.') else fqn
  }

  /** The stub name is the text after the last '.', even inside a parameter list. */
  lemma StubNameIsLastSegment(fqn: string)
    ensures '.' !in StubName(fqn)
    ensures var k := LastIndexOfChar(fqn, '.'); StubName(fqn) == fqn[k + 1..]
  {
    SplitLastShape(fqn, '.');
    if '.' in fqn {
      LastIndexOfCharAt(fqn, '.', |fqn| - |LastPiece(fqn, '.')| - 1);
    }
  }

  /** A stub node: the name rule above, no signature, uri 'unknown'. */
  function Stub(fqn: string, nodeType: string): NodeInput {
    NodeInput(Some(fqn), Some(nodeType), Some(StubName(fqn)), None, Some("unknown"))
  }

  /** `ensure_node_exists` on the table: a stub is added only when the FQN is absent. */
  function EnsureStub(m: map<string, Node>, fqn: string, nodeType: string): map<string, Node>
  {
    if fqn in m then m else m[fqn := ToNode(Stub(fqn, nodeType))]
  }

  /**
   * The type given to a missing target: 'method' only for a `call` edge whose
   * target has a parameter list, 'class' otherwise.
   */
  function StubKindFor(edgeType: Option<string>, toFqn: string): string
  {
    if edgeType == Some("call") && Contains(toFqn, "(") then "method" else "class"
  }

  /** The stubs `add_edge` creates for one edge: the source as 'method', then the target. */
  function WithStubs(m: map<string, Node>, e: EdgeInput): map<string, Node>
  {
    var m1 := if TruthyStr(e.fromFqn) then EnsureStub(m, e.fromFqn.value, "method") else m;
    if TruthyStr(e.toFqn) then EnsureStub(m1, e.toFqn.value, StubKindFor(e.edgeType, e.toFqn.value)) else m1
  }

  /** The stubs of a whole batch, edge after edge. */
  function WithStubsAll(m: map<string, Node>, es: seq<EdgeInput>): map<string, Node>
    decreases |es|
  {
    if |es| == 0 then m else WithStubsAll(WithStubs(m, es[0]), es[1..])
  }

  /**
   * After the stub step both non-empty endpoints exist, pre-existing nodes
   * are untouched, and nothing but the two endpoints is added. A new source
   * stub is a 'method'; a new target stub (distinct from the source) has the
   * kind `StubKindFor` gives, so 'method' only for `call` edges.
   */
  lemma WithStubsSpec(m: map<string, Node>, e: EdgeInput)
    ensures var r := WithStubs(m, e);
      && (TruthyStr(e.fromFqn) ==> e.fromFqn.value in r)
      && (TruthyStr(e.toFqn) ==> e.toFqn.value in r)
      && (forall k :: k in m ==> k in r && r[k] == m[k])
      && (forall k :: k in r && k !in m ==> Some(k) == e.fromFqn || Some(k) == e.toFqn)
      && (TruthyStr(e.fromFqn) && e.fromFqn.value !in m ==> r[e.fromFqn.value].nodeType == "method")
      && (TruthyStr(e.toFqn) && e.toFqn.value !in m && e.fromFqn != e.toFqn ==>
            r[e.toFqn.value].nodeType == StubKindFor(e.edgeType, e.toFqn.value))
      && (forall k :: k in r && k !in m ==> r[k].name == StubName(k) && r[k].signature == None && r[k].uri == "unknown")
  {
  }

  lemma StubKindForSpec(edgeType: Option<string>, toFqn: string)
    ensures StubKindFor(edgeType, toFqn) == "method" <==> edgeType == Some("call") && '(' in toFqn
    ensures StubKindFor(edgeType, toFqn) == "method" || StubKindFor(edgeType, toFqn) == "class"
  {
    if '(' in toFqn {
      var i :| 0 <= i < |toFqn| && toFqn[i] == '(';
      assert toFqn[i..i + 1] == "(";
      assert ContainsAt(toFqn, "(", i);
    }
    if Contains(toFqn, "(") {
      var i := IndexOf(toFqn, "(");
      assert toFqn[i..i + 1] == "(";
      assert toFqn[i] == '(';
    }
  }

  /** The annotation rows of one edge with id `id`, in list order. */
  function AnnotationRows(id: int, anns: seq<string>): (r: seq<Annotation>)
    ensures |r| == |anns|
    ensures forall i :: 0 <= i < |r| ==> r[i] == Annotation(id, anns[i])
  {
    seq(|anns|, i requires 0 <= i < |anns| => Annotation(id, anns[i]))
  }

  /** The edge rows of a batch whose NOT NULL columns are all set. */
  predicate AllEdgeRowsOk(es: seq<EdgeInput>) {
    forall i :: 0 <= i < |es| ==> EdgeRowOk(es[i])
  }

  /** The longest prefix of `es` whose rows can be inserted, as edge rows. */
  function InsertablePrefix(es: seq<EdgeInput>): (r: seq<Edge>)
    ensures |r| <= |es|
    ensures AllEdgeRowsOk(es) ==> |r| == |es|
    ensures forall i :: 0 <= i < |r| ==> EdgeRowOk(es[i]) && r[i] == ToEdge(es[i])
    decreases |es|
  {
    if |es| == 0 || !EdgeRowOk(es[0]) then []
    else [ToEdge(es[0])] + InsertablePrefix(es[1..])
  }

  /**
   * The pending annotation lists of a batch: `(index, annotations)` for each
   * edge whose list is non-empty, in batch order.
   */
  function PendingAnnotations(es: seq<EdgeInput>): (r: seq<(int, seq<string>)>)
    ensures forall j :: 0 <= j < |r| ==> 0 <= r[j].0 < |es| && r[j].1 == es[r[j].0].annotations && r[j].1 != []
    ensures forall j, k :: 0 <= j < k < |r| ==> r[j].0 < r[k].0
    decreases |es|
  {
    if |es| == 0 then []
    else
      var before := PendingAnnotations(es[..|es| - 1]);
      var last := es[|es| - 1];
      assert forall j :: 0 <= j < |before| ==> es[..|es| - 1][before[j].0] == es[before[j].0];
      if last.annotations != [] then before + [(|es| - 1, last.annotations)] else before
  }

  /** Annotation rows for pending lists, numbering edge `idx` as `firstId + idx`. */
  function BatchAnnotationRows(firstId: int, pending: seq<(int, seq<string>)>): seq<Annotation>
    decreases |pending|
  {
    if |pending| == 0 then []
    else BatchAnnotationRows(firstId, pending[..|pending| - 1])
         + AnnotationRows(firstId + pending[|pending| - 1].0, pending[|pending| - 1].1)
  }

  /**
   * Each batch annotation row belongs to the edge at batch index `idx`, has
   * id `firstId + idx`, and carries one of that edge's annotations.
   */
  lemma {:induction false} BatchAnnotationRowsSpec(firstId: int, es: seq<EdgeInput>, pending: seq<(int, seq<string>)>)
    requires forall j :: 0 <= j < |pending| ==> 0 <= pending[j].0 < |es| && pending[j].1 == es[pending[j].0].annotations
    ensures forall a :: a in BatchAnnotationRows(firstId, pending) ==>
              exists idx :: 0 <= idx < |es| && a.edgeId == firstId + idx && a.annotation in es[idx].annotations
    decreases |pending|
  {
    if |pending| > 0 {
      var init := pending[..|pending| - 1];
      BatchAnnotationRowsSpec(firstId, es, init);
      var p := pending[|pending| - 1];
      forall a | a in AnnotationRows(firstId + p.0, p.1)
        ensures exists idx :: 0 <= idx < |es| && a.edgeId == firstId + idx && a.annotation in es[idx].annotations
      {
        var i :| 0 <= i < |p.1| && AnnotationRows(firstId + p.0, p.1)[i] == a;
        assert a.annotation == es[p.0].annotations[i];
      }
    }
  }

  /** Every annotation of a batch edge gets exactly one row, so the row count is their total. */
  lemma {:induction false} BatchAnnotationRowsCount(firstId: int, pending: seq<(int, seq<string>)>)
    ensures |BatchAnnotationRows(firstId, pending)| == SumLengths(pending)
    decreases |pending|
  {
    if |pending| > 0 {
      BatchAnnotationRowsCount(firstId, pending[..|pending| - 1]);
    }
  }

  function SumLengths(pending: seq<(int, seq<string>)>): nat
    decreases |pending|
  {
    if |pending| == 0 then 0 else SumLengths(pending[..|pending| - 1]) + |pending[|pending| - 1].1|
  }

  // ---------------------------------------------------------------------
  // add_edges_batch computes the id of its first edge from `cursor.lastrowid`

  /**
   * Python's `sqlite3` updates `cursor.lastrowid` only after `execute()`;
   * after `executemany()` it keeps its previous value, which is `None` for
   * the fresh cursor `add_edges_batch` creates.
   */
  function LastRowIdAfterExecuteMany(): Option<int> {
    None
  }

  /** `cursor.lastrowid - len(edge_rows) + 1` as written: a TypeError on `None`. */
  function FirstIdAsWritten(lastRowId: Option<int>, n: int): (r: Result<int>)
  {
    match lastRowId
    case None => Err("TypeError: unsupported operand type(s) for -: 'NoneType' and 'int'")
    case Some(id) => Ok(id - n + 1)
  }

  /** As written, every non-empty batch raises before any annotation is stored. */
  lemma FirstIdAsWrittenFails(n: int)
    ensures FirstIdAsWritten(LastRowIdAfterExecuteMany(), n).Err?
  {
  }

  /**
   * The id the batch evidently means: the id of its first row, one past the
   * number of edges stored before it. If `executemany` did set the id of its
   * last row, the written formula would give the same value.
   */
  function FirstId(edgesBefore: nat): (r: int)
    ensures r >= 1
  {
    edgesBefore + 1
  }

  lemma FirstIdAgreesWithFormula(edgesBefore: nat, n: nat)
    requires n >= 1
    ensures FirstIdAsWritten(Some(edgesBefore + n), n) == Ok(FirstId(edgesBefore))
  {
  }

  class Store {
    var nodes: map<string, Node>
    var edges: seq<Edge>
    var annotations: seq<Annotation>

    /** Opening a new database creates the three empty tables. */
    constructor ()
      ensures nodes == map[] && edges == [] && annotations == []
    {
      nodes := map[];
      edges := [];
      annotations := [];
    }

    /** `find_node`: the stored row for `fqn`, if any. */
    method FindNode(fqn: string) returns (r: Option<Node>)
      ensures r.Some? <==> fqn in nodes
      ensures r.Some? ==> r.value == nodes[fqn]
    {
      if fqn in nodes {
        r := Some(nodes[fqn]);
      } else {
        r := None;
      }
    }

    /**
     * `add_node`. With `updateIfExists` it runs INSERT OR REPLACE and answers
     * True (or raises on a NULL column); otherwise a plain INSERT whose
     * IntegrityError is caught and answered with False.
     */
    method AddNode(n: NodeInput, updateIfExists: bool) returns (r: Result<bool>)
      modifies this`nodes
      ensures updateIfExists ==> match ReplaceRow(old(nodes), n)
        case Some(m) => r == Ok(true) && nodes == m
        case None => r.Err? && nodes == old(nodes)
      ensures !updateIfExists ==> match InsertRow(old(nodes), n)
        case Some(m) => r == Ok(true) && nodes == m
        case None => r == Ok(false) && nodes == old(nodes)
    {
      if updateIfExists {
        var m := ReplaceRow(nodes, n);
        if m.Some? {
          nodes := m.value;
          r := Ok(true);
        } else {
          r := Err("IntegrityError: NOT NULL constraint failed");
        }
      } else {
        var m := InsertRow(nodes, n);
        if m.Some? {
          nodes := m.value;
          r := Ok(true);
        } else {
          r := Ok(false);
        }
      }
    }

    /** `ensure_node_exists`: True iff a stub had to be created. */
    method EnsureNodeExists(fqn: string, nodeType: string) returns (created: bool)
      modifies this`nodes
      ensures created <==> fqn !in old(nodes)
      ensures nodes == EnsureStub(old(nodes), fqn, nodeType)
    {
      var found := FindNode(fqn);
      if found.Some? {
        return false;
      }
      var r := AddNode(Stub(fqn, nodeType), false);
      created := r == Ok(true);
    }

    /**
     * `add_nodes_batch`: (inserted, skipped). The empty list is answered with
     * (0, 0). INSERT OR IGNORE reports `rowcount` when it is positive and
     * otherwise the list length.
     */
    method AddNodesBatch(rows: seq<NodeInput>, updateIfExists: bool) returns (r: Result<(int, int)>)
      modifies this`nodes
      ensures rows == [] ==> r == Ok((0, 0)) && nodes == old(nodes)
      ensures rows != [] && updateIfExists ==>
        nodes == ReplaceRows(old(nodes), rows).0
        && (if ReplaceRows(old(nodes), rows).1 then r == Ok((|rows|, 0)) else r.Err?)
      ensures rows != [] && !updateIfExists ==>
        var count := IgnoreRowCount(old(nodes), rows);
        var inserted := if count > 0 then count else |rows|;
        nodes == IgnoreRows(old(nodes), rows) && r == Ok((inserted, |rows| - inserted))
    {
      if rows == [] {
        return Ok((0, 0));
      }
      if updateIfExists {
        var outcome := ReplaceRows(nodes, rows);
        nodes := outcome.0;
        if outcome.1 {
          r := Ok((|rows|, 0));
        } else {
          r := Err("IntegrityError: NOT NULL constraint failed");
        }
      } else {
        var count := IgnoreRowCount(nodes, rows);
        nodes := IgnoreRows(nodes, rows);
        var inserted := if count > 0 then count else |rows|;
        r := Ok((inserted, |rows| - inserted));
      }
    }

    /** The stub step of `add_edge`: the source as a 'method', then the target. */
    method CreateStubs(e: EdgeInput)
      modifies this`nodes
      ensures nodes == WithStubs(old(nodes), e)
    {
      if TruthyStr(e.fromFqn) {
        var _ := EnsureNodeExists(e.fromFqn.value, "method");
      }
      if TruthyStr(e.toFqn) {
        var nodeType := StubKindFor(e.edgeType, e.toFqn.value);
        var _ := EnsureNodeExists(e.toFqn.value, nodeType);
      }
    }

    /**
     * `add_edge`: optional stubs, then one edge row (duplicates allowed) and
     * one annotation row per annotation; answers the new edge id.
     */
    method AddEdge(e: EdgeInput, autoCreateStubs: bool) returns (r: Result<int>)
      modifies this`nodes, this`edges, this`annotations
      ensures nodes == (if autoCreateStubs then WithStubs(old(nodes), e) else old(nodes))
      ensures EdgeRowOk(e) ==>
        && r == Ok(|old(edges)| + 1)
        && edges == old(edges) + [ToEdge(e)]
        && annotations == old(annotations) + AnnotationRows(|old(edges)| + 1, e.annotations)
      ensures !EdgeRowOk(e) ==> r.Err? && edges == old(edges) && annotations == old(annotations)
    {
      if autoCreateStubs {
        CreateStubs(e);
      }
      if !EdgeRowOk(e) {
        return Err("IntegrityError: NOT NULL constraint failed");
      }
      edges := edges + [ToEdge(e)];
      var edgeId := |edges|;
      var i := 0;
      while i < |e.annotations|
        invariant 0 <= i <= |e.annotations|
        invariant annotations == old(annotations) + AnnotationRows(edgeId, e.annotations[..i])
        invariant edges == old(edges) + [ToEdge(e)]
        invariant nodes == (if autoCreateStubs then WithStubs(old(nodes), e) else old(nodes))
      {
        annotations := annotations + [Annotation(edgeId, e.annotations[i])];
        i := i + 1;
        assert AnnotationRows(edgeId, e.annotations[..i])
            == AnnotationRows(edgeId, e.annotations[..i - 1]) + [Annotation(edgeId, e.annotations[i - 1])];
      }
      assert e.annotations[..i] == e.annotations;
      r := Ok(edgeId);
    }

    /**
     * The loop of `add_edges_batch` that ensures stubs and collects the rows
     * and the pending annotation lists.
     */
    method StageEdges(es: seq<EdgeInput>, autoCreateStubs: bool)
        returns (rows: seq<EdgeInput>, pending: seq<(int, seq<string>)>)
      modifies this`nodes
      ensures nodes == (if autoCreateStubs then WithStubsAll(old(nodes), es) else old(nodes))
      ensures rows == es
      ensures pending == PendingAnnotations(es)
    {
      rows := [];
      pending := [];
      var i := 0;
      while i < |es|
        invariant 0 <= i <= |es|
        invariant rows == es[..i]
        invariant pending == PendingAnnotations(es[..i])
        invariant autoCreateStubs ==> WithStubsAll(old(nodes), es) == WithStubsAll(nodes, es[i..])
        invariant !autoCreateStubs ==> nodes == old(nodes)
      {
        var e := es[i];
        if autoCreateStubs {
          CreateStubs(e);
          assert es[i..][1..] == es[i + 1..];
        }
        rows := rows + [e];
        if e.annotations != [] {
          pending := pending + [(|rows| - 1, e.annotations)];
        }
        i := i + 1;
        assert es[..i][..i - 1] == es[..i - 1];
      }
      assert es[..i] == es;
    }

    /** The annotation loop of `add_edges_batch`, numbering edge `idx` as `firstId + idx`. */
    method AnnotationRowsFor(firstId: int, pending: seq<(int, seq<string>)>) returns (out: seq<Annotation>)
      ensures out == BatchAnnotationRows(firstId, pending)
    {
      out := [];
      var j := 0;
      while j < |pending|
        invariant 0 <= j <= |pending|
        invariant out == BatchAnnotationRows(firstId, pending[..j])
      {
        var (idx, anns) := pending[j];
        var edgeId := firstId + idx;
        var k := 0;
        while k < |anns|
          invariant 0 <= k <= |anns|
          invariant out == BatchAnnotationRows(firstId, pending[..j]) + AnnotationRows(edgeId, anns[..k])
        {
          out := out + [Annotation(edgeId, anns[k])];
          k := k + 1;
          assert AnnotationRows(edgeId, anns[..k]) == AnnotationRows(edgeId, anns[..k - 1]) + [Annotation(edgeId, anns[k - 1])];
        }
        assert anns[..k] == anns;
        j := j + 1;
        assert pending[..j][..j - 1] == pending[..j - 1];
      }
      assert pending[..j] == pending;
    }

    /**
     * `add_edges_batch` with the first id taken as the id of the first
     * inserted row: answers the number of edges; the empty list is answered
     * with 0 and changes nothing.
     */
    method AddEdgesBatch(es: seq<EdgeInput>, autoCreateStubs: bool) returns (r: Result<int>)
      modifies this`nodes, this`edges, this`annotations
      ensures es == [] ==> r == Ok(0) && nodes == old(nodes) && edges == old(edges) && annotations == old(annotations)
      ensures es != [] ==> nodes == (if autoCreateStubs then WithStubsAll(old(nodes), es) else old(nodes))
      ensures es != [] ==> edges == old(edges) + InsertablePrefix(es)
      ensures es != [] && AllEdgeRowsOk(es) ==>
        && r == Ok(|es|)
        && annotations == old(annotations) + BatchAnnotationRows(FirstId(|old(edges)|), PendingAnnotations(es))
      ensures es != [] && !AllEdgeRowsOk(es) ==> r.Err? && annotations == old(annotations)
    {
      if es == [] {
        return Ok(0);
      }
      var rows, pending := StageEdges(es, autoCreateStubs);
      var firstId := FirstId(|edges|);
      edges := edges + InsertablePrefix(rows);
      if !AllEdgeRowsOk(rows) {
        return Err("IntegrityError: NOT NULL constraint failed");
      }
      var annRows := AnnotationRowsFor(firstId, pending);
      annotations := annotations + annRows;
      r := Ok(|rows|);
    }

    /**
     * `add_edges_batch` as written: after the rows are inserted, the first id
     * is computed from `cursor.lastrowid`, which raises for every batch.
     */
    method AddEdgesBatchAsWritten(es: seq<EdgeInput>, autoCreateStubs: bool) returns (r: Result<int>)
      modifies this`nodes, this`edges, this`annotations
      ensures es == [] ==> r == Ok(0) && edges == old(edges)
      ensures es != [] ==> r.Err? && annotations == old(annotations)
      ensures es != [] ==> edges == old(edges) + InsertablePrefix(es)
      ensures es != [] ==> nodes == (if autoCreateStubs then WithStubsAll(old(nodes), es) else old(nodes))
      ensures es == [] ==> nodes == old(nodes) && annotations == old(annotations)
    {
      if es == [] {
        return Ok(0);
      }
      var rows, pending := StageEdges(es, autoCreateStubs);
      edges := edges + InsertablePrefix(rows);
      if !AllEdgeRowsOk(rows) {
        return Err("IntegrityError: NOT NULL constraint failed");
      }
      // The subtraction raises, so the annotation step that follows it is never reached.
      var firstId := FirstIdAsWritten(LastRowIdAfterExecuteMany(), |rows|);
      r := Err(firstId.error);
    }

    /**
     * `reset`: drops and recreates `edges` and `nodes`. `edge_annotations` is
     * not dropped, so its rows survive and will refer to the new edges that
     * reuse their ids.
     */
    method Reset()
      modifies this`nodes, this`edges
      ensures nodes == map[] && edges == []
      ensures annotations == old(annotations)
    {
      edges := [];
      nodes := map[];
    }
  }

  /**
   * `reset` followed by `add_edge`: the new edge gets id 1 again, every
   * annotation row survives the reset, and each one that carried edge id 1
   * is now attached to the new edge, whatever edge it was written for.
   */
  method AnnotationsOutliveReset(s: Store, e: EdgeInput, autoCreateStubs: bool) returns (r: Result<int>)
    modifies s
    ensures forall a :: a in old(s.annotations) ==> a in s.annotations
    ensures EdgeRowOk(e) ==>
              r == Ok(1) && s.edges == [ToEdge(e)]
              && forall a :: a in old(s.annotations) && a.edgeId == 1 ==> s.edges[a.edgeId - 1] == ToEdge(e)
    ensures !EdgeRowOk(e) ==> r.Err? && s.edges == [] && s.annotations == old(s.annotations)
  {
    s.Reset();
    r := s.AddEdge(e, autoCreateStubs);
  }
}
