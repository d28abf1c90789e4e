/**
 * The read side of the call-graph database: `CallGraphService`'s queries
 * over a vector-store collection of usage records. A collection is the
 * sequence of its metadata records in storage order; `get(where, limit)`
 * returns the first `limit` records that satisfy every equality of the
 * `where` conjunction.
 */
module QueryEngine {
  import opened StringUtil
  import opened Common

  type Collection = seq<Record>

  /** A conjunction of equality conditions on string-valued keys. */
  type Where = seq<(string, string)>

  predicate Satisfies(r: Record, w: Where) {
    forall i :: 0 <= i < |w| ==> w[i].0 in r && r[w[i].0] == VStr(w[i].1)
  }

  /** All records of `c` that satisfy `w`, in storage order. */
  function Matching(c: Collection, w: Where): (r: seq<Record>)
    ensures |r| <= |c|
    ensures forall x :: x in r <==> x in c && Satisfies(x, w)
    decreases |c|
  {
    if |c| == 0 then []
    else Matching(c[..|c| - 1], w) + (if Satisfies(c[|c| - 1], w) then [c[|c| - 1]] else [])
  }

  /** The first `n` elements of `xs` (all of them when there are fewer). */
  function Take<T>(xs: seq<T>, n: nat): (r: seq<T>)
    ensures |r| == if n < |xs| then n else |xs|
    ensures r == xs[..|r|]
  {
    if n < |xs| then xs[..n] else xs
  }

  /** `collection.get(where=w, limit=n)`. */
  function CollectionGet(c: Collection, w: Where, n: nat): (r: seq<Record>)
    ensures |r| <= n
    ensures forall x :: x in r ==> x in c && Satisfies(x, w)
    ensures |Matching(c, w)| <= n ==> r == Matching(c, w)
  {
    Take(Matching(c, w), n)
  }

  /** A string field of a record; a missing or non-string value reads as `""`. */
  function StrField(r: Record, k: string): string {
    if k in r && r[k].VStr? then r[k].s else ""
  }

  /** The caller symbol a record names, if it names a non-empty one. */
  function CallerSymbol(r: Record): (s: Option<string>)
    ensures s.Some? ==> s.value != "" && "callerSymbol" in r && r["callerSymbol"] == VStr(s.value)
    ensures s.None? ==> "callerSymbol" !in r || r["callerSymbol"] == VStr("") || !r["callerSymbol"].VStr?
  {
    if "callerSymbol" in r && r["callerSymbol"].VStr? && r["callerSymbol"].s != "" then Some(r["callerSymbol"].s) else None
  }

  // ---------------------------------------------------------------------
  // Pagination
  // ---------------------------------------------------------------------

  function Min(a: nat, b: nat): nat { if a < b then a else b }

  /** Python's `xs[offset:offset + limit]` for non-negative bounds. */
  function Slice<T>(xs: seq<T>, offset: nat, limit: nat): (r: seq<T>)
    ensures |r| == if offset >= |xs| then 0 else Min(limit, |xs| - offset)
    ensures forall i :: 0 <= i < |r| ==> r[i] == xs[offset + i]
  {
    if offset >= |xs| then [] else xs[offset..Min(offset + limit, |xs|)]
  }

  /** One page of an answer: the keys every paginated query returns. */
  datatype Page<T> = Page(results: seq<T>, total: nat, offset: nat, limit: nat,
                          hasMore: bool, nextOffset: Option<nat>, error: Option<string>)

  /** The page of `xs` at `offset`, with the pagination keys. */
  function Paginate<T>(xs: seq<T>, offset: nat, limit: nat): (p: Page<T>)
    ensures p.total == |xs| && p.offset == offset && p.limit == limit && p.error.None?
    ensures |p.results| == if offset >= |xs| then 0 else Min(limit, |xs| - offset)
    ensures forall i :: 0 <= i < |p.results| ==> p.results[i] == xs[offset + i]
    ensures |p.results| <= limit
    ensures p.hasMore <==> |p.results| == limit && offset + limit < |xs|
    ensures p.nextOffset.Some? <==> p.hasMore
    ensures p.nextOffset.Some? ==> p.nextOffset.value == offset + |p.results|
    ensures !p.hasMore ==> offset >= |xs| || offset + |p.results| == |xs|
  {
    var more := offset + limit < |xs|;
    Page(Slice(xs, offset, limit), |xs|, offset, limit, more, if more then Some(offset + limit) else None, None)
  }

  /** What a client gets by following `next_offset` from `offset` to the last page. */
  function Walk<T>(xs: seq<T>, offset: nat, limit: nat): seq<T>
    requires limit > 0
    decreases |xs| - offset
  {
    var p := Paginate(xs, offset, limit);
    if p.nextOffset.Some? then p.results + Walk(xs, p.nextOffset.value, limit) else p.results
  }

  /** Following `next_offset` from any start visits every later element once, in order. */
  lemma {:induction false} WalkCoversRest<T>(xs: seq<T>, offset: nat, limit: nat)
    requires limit > 0 && offset <= |xs|
    ensures Walk(xs, offset, limit) == xs[offset..]
    decreases |xs| - offset
  {
    var p := Paginate(xs, offset, limit);
    if p.nextOffset.Some? {
      var n := p.nextOffset.value;
      WalkCoversRest(xs, n, limit);
      assert p.results == xs[offset..n];
      assert xs[offset..] == xs[offset..n] + xs[n..];
    } else {
      assert p.results == xs[offset..];
    }
  }

  /** Starting at offset 0, the pages partition the whole answer. */
  lemma WalkCoversAll<T>(xs: seq<T>, limit: nat)
    requires limit > 0
    ensures Walk(xs, 0, limit) == xs
  {
    WalkCoversRest(xs, 0, limit);
  }

  // ---------------------------------------------------------------------
  // Usage queries
  // ---------------------------------------------------------------------

  /** The filters of `find_usages` and `raw_usages`. */
  datatype UsageQuery = UsageQuery(symbol: string, usageType: Option<string>,
                                   moduleFilter: Option<string>, excludeGenerated: bool)

  /** The `where` clause: the callee, then the usage type and module when given. */
  function WhereFor(q: UsageQuery): (w: Where)
    ensures |w| >= 1 && w[0] == ("calleeSymbol", q.symbol)
    ensures ("usageType", q.usageType.value) in w <== TruthyStr(q.usageType)
    ensures ("module", q.moduleFilter.value) in w <== TruthyStr(q.moduleFilter)
    ensures |w| == 1 + (if TruthyStr(q.usageType) then 1 else 0) + (if TruthyStr(q.moduleFilter) then 1 else 0)
  {
    [("calleeSymbol", q.symbol)]
    + (if TruthyStr(q.usageType) then [("usageType", q.usageType.value)] else [])
    + (if TruthyStr(q.moduleFilter) then [("module", q.moduleFilter.value)] else [])
  }

  /** The most records one `get` may return. */
  const MaxFetch: nat := 10000

  /** The `limit` passed to `get`: three pages when generated files are dropped, else everything up to the page's end. */
  function FetchLimit(q: UsageQuery, offset: nat, limit: nat): nat {
    Min(if q.excludeGenerated then limit * 3 else limit + offset, MaxFetch)
  }

  /** A caller file under a build or generated-sources directory, or of the framework itself. */
  predicate IsGeneratedUri(u: string) {
    Contains(u, "/build/") || Contains(u, "/src-gen/") || Contains(u, "\\build\\") || Contains(u, "\\src-gen\\")
    || Contains(u, "axelor-open-platform")
  }

  predicate IsGenerated(r: Record) {
    IsGeneratedUri(StrField(r, "callerUri"))
  }

  /** The records whose caller file is not generated, in order. */
  function DropGenerated(xs: seq<Record>): (r: seq<Record>)
    ensures |r| <= |xs|
    ensures forall x :: x in r <==> x in xs && !IsGenerated(x)
    decreases |xs|
  {
    if |xs| == 0 then []
    else DropGenerated(xs[..|xs| - 1]) + (if IsGenerated(xs[|xs| - 1]) then [] else [xs[|xs| - 1]])
  }

  /** The fetched records after the optional generated-file filter. */
  function Filtered(c: Collection, q: UsageQuery, offset: nat, limit: nat): seq<Record> {
    var fetched := CollectionGet(c, WhereFor(q), FetchLimit(q, offset, limit));
    if q.excludeGenerated then DropGenerated(fetched) else fetched
  }

  /** `raw_usages`: one page of the filtered usages, with no recursion. */
  function RawUsages(c: Collection, q: UsageQuery, offset: nat, limit: nat): Page<Record> {
    Paginate(Filtered(c, q, offset, limit), offset, limit)
  }

  /** Every usage returned matches the query, is stored, and is not generated when so asked. */
  lemma RawUsagesSound(c: Collection, q: UsageQuery, offset: nat, limit: nat)
    ensures var p := RawUsages(c, q, offset, limit);
      forall r :: r in p.results ==>
        r in c && Satisfies(r, WhereFor(q)) && (q.excludeGenerated ==> !IsGenerated(r))
  {
    var f := Filtered(c, q, offset, limit);
    var p := RawUsages(c, q, offset, limit);
    forall r | r in p.results
      ensures r in c && Satisfies(r, WhereFor(q)) && (q.excludeGenerated ==> !IsGenerated(r))
    {
      var i :| 0 <= i < |p.results| && p.results[i] == r;
      assert r in f;
    }
  }

  /** `total` counts at most one fetch window of `min(limit*3 or limit+offset, 10000)` records. */
  lemma RawUsagesWindow(c: Collection, q: UsageQuery, offset: nat, limit: nat)
    ensures RawUsages(c, q, offset, limit).total <= FetchLimit(q, offset, limit) <= MaxFetch
    ensures !q.excludeGenerated && offset + limit <= MaxFetch ==>
      RawUsages(c, q, offset, limit).results == Slice(Matching(c, WhereFor(q)), offset, limit)
  {
    if !q.excludeGenerated && offset + limit <= MaxFetch {
      SliceOfTake(Matching(c, WhereFor(q)), offset, limit);
    }
  }

  /** A page within the first `offset + limit` elements is the same page of the whole sequence. */
  lemma SliceOfTake<T>(xs: seq<T>, offset: nat, limit: nat)
    ensures Slice(Take(xs, offset + limit), offset, limit) == Slice(xs, offset, limit)
  {
    var f := Take(xs, offset + limit);
    var a := Slice(f, offset, limit);
    var b := Slice(xs, offset, limit);
    assert |a| == |b|;
    forall i | 0 <= i < |a| ensures a[i] == b[i] {
      assert f[offset + i] == xs[offset + i];
    }
  }

  /**
   * The fetch window of a query that drops generated files ignores the
   * offset, so any page at or beyond `min(3*limit, 10000)` is empty and says
   * there is nothing more, however many matching records the collection holds.
   */
  lemma ExcludingPagesEndAtWindow(c: Collection, q: UsageQuery, offset: nat, limit: nat)
    requires q.excludeGenerated && offset >= Min(limit * 3, MaxFetch)
    ensures RawUsages(c, q, offset, limit).results == []
    ensures !RawUsages(c, q, offset, limit).hasMore
  {
    RawUsagesWindow(c, q, offset, limit);
  }

  /** `find_usages`'s depth rule: `-1` recurses to the safety limit, `n > 0` to depth `n`, anything else not at all. */
  function ShouldRecurse(depth: int, current: nat, maxDepth: int): (b: bool)
    ensures depth == -1 ==> (b <==> current < maxDepth)
    ensures depth > 0 ==> (b <==> current < depth)
    ensures depth != -1 && depth <= 0 ==> !b
  {
    if depth == -1 then current < maxDepth else if depth > 0 then current < depth else false
  }

  /** A returned usage and, once expanded, the usages of its caller. */
  datatype Usage = Usage(meta: Record, children: Option<Children>)

  /** `_children`, `_children_total`, `_children_displayed` and `_children_truncated`. */
  datatype Children = Children(results: seq<Usage>, total: nat, displayed: nat, truncated: bool)

  function Metas(us: seq<Usage>): (r: seq<Record>)
    ensures |r| == |us| && forall i :: 0 <= i < |us| ==> r[i] == us[i].meta
  {
    seq(|us|, i requires 0 <= i < |us| => us[i].meta)
  }

  /** The page with the children left out: the records as a non-recursive query returns them. */
  function Flat(p: Page<Usage>): Page<Record> {
    Page(Metas(p.results), p.total, p.offset, p.limit, p.hasMore, p.nextOffset, p.error)
  }

  /** The page `find_usages` returns once the depth reaches the safety limit. */
  function MaxDepthPage(limit: nat, maxDepth: int): (p: Page<Usage>)
    ensures p.results == [] && p.total == 0 && !p.hasMore && p.nextOffset.None? && p.error.Some?
  {
    Page([], 0, 0, limit, false, None, Some("Max depth " + IntToString(maxDepth) + " reached"))
  }

  /** The caller symbols expanded in a usage tree, in the order the search expanded them. */
  function ExpandedOne(u: Usage): seq<string>
    decreases u, 1
  {
    match u.children
    case None => []
    case Some(ch) => [StrField(u.meta, "callerSymbol")] + ExpandedList(ch.results)
  }

  function ExpandedList(us: seq<Usage>): seq<string>
    decreases us, 0
  {
    if |us| == 0 then [] else ExpandedList(us[..|us| - 1]) + ExpandedOne(us[|us| - 1])
  }

  predicate NoDuplicates(s: seq<string>) {
    forall i, j :: 0 <= i < j < |s| ==> s[i] != s[j]
  }

  lemma NoDuplicatesAppend(a: seq<string>, b: seq<string>)
    requires NoDuplicates(a) && NoDuplicates(b)
    requires forall x :: x in a ==> x !in b
    ensures NoDuplicates(a + b)
  {
    forall i, j | 0 <= i < j < |a + b| ensures (a + b)[i] != (a + b)[j] {
      if i < |a| && j >= |a| {
        assert (a + b)[i] in a && (a + b)[j] in b;
      }
    }
  }

  /** The parent's record of one expanded child query. */
  predicate ChildrenOk(c: Collection, q: UsageQuery, u: Usage, maxChildren: nat, next: nat, maxDepth: int) {
    u.children.Some? ==>
      var ch := u.children.value;
      var s := StrField(u.meta, "callerSymbol");
      CallerSymbol(u.meta) == Some(s)
      && ch.displayed == |ch.results|
      && ch.truncated == (ch.total > ch.displayed)
      && (if next >= maxDepth then ch.results == [] && ch.total == 0
          else Flat(Page(ch.results, ch.total, 0, maxChildren, ch.total > maxChildren, if ch.total > maxChildren then Some(maxChildren) else None, None))
               == RawUsages(c, q.(symbol := s), 0, maxChildren))
  }

  /**
   * `find_usages`: the page of the filtered usages of `q.symbol`; when the
   * depth rule allows it, each paginated usage whose caller has not been
   * visited is marked visited and expanded by the same query on the caller
   * (offset 0, `maxChildren` results, one level deeper), sharing the visited set.
   */
  method FindUsages(c: Collection, q: UsageQuery, offset: nat, limit: nat, depth: int, maxChildren: nat,
                    maxDepth: int, visited: set<string>, current: nat)
      returns (page: Page<Usage>, visitedOut: set<string>)
    ensures current >= maxDepth ==> page == MaxDepthPage(limit, maxDepth) && visitedOut == visited
    ensures current < maxDepth ==> Flat(page) == RawUsages(c, q, offset, limit)
    ensures visited <= visitedOut
    ensures !ShouldRecurse(depth, current, maxDepth) ==> visitedOut == visited && ExpandedList(page.results) == []
    ensures NoDuplicates(ExpandedList(page.results))
    ensures forall s :: s in ExpandedList(page.results) <==> s in visitedOut - visited
    ensures forall i :: 0 <= i < |page.results| ==> ChildrenOk(c, q, page.results[i], maxChildren, current + 1, maxDepth)
    decreases maxDepth - current, 2
  {
    if current >= maxDepth {
      page := MaxDepthPage(limit, maxDepth);
      visitedOut := visited;
      assert ExpandedList([]) == [];
      return;
    }
    var recurse := ShouldRecurse(depth, current, maxDepth);
    var filtered := Filtered(c, q, offset, limit);
    var results;
    results, visitedOut := ExpandAll(c, q, Slice(filtered, offset, limit), depth, maxChildren, maxDepth,
                                     recurse, visited, current);
    var more := offset + limit < |filtered|;
    page := Page(results, |filtered|, offset, limit, more, if more then Some(offset + limit) else None, None);
  }

  /** The loop over the paginated usages, expanding each in turn with the shared visited set. */
  method ExpandAll(c: Collection, q: UsageQuery, paginated: seq<Record>, depth: int, maxChildren: nat,
                   maxDepth: int, recurse: bool, visited: set<string>, current: nat)
      returns (results: seq<Usage>, visitedOut: set<string>)
    requires current < maxDepth
    ensures Metas(results) == paginated
    ensures visited <= visitedOut
    ensures !recurse ==> visitedOut == visited && ExpandedList(results) == []
    ensures NoDuplicates(ExpandedList(results))
    ensures forall s :: s in ExpandedList(results) <==> s in visitedOut - visited
    ensures forall j :: 0 <= j < |results| ==> ChildrenOk(c, q, results[j], maxChildren, current + 1, maxDepth)
    decreases maxDepth - current, 1
  {
    results := [];
    visitedOut := visited;
    var i := 0;
    while i < |paginated|
      invariant 0 <= i <= |paginated|
      invariant Metas(results) == paginated[..i]
      invariant visited <= visitedOut
      invariant !recurse ==> visitedOut == visited && ExpandedList(results) == []
      invariant NoDuplicates(ExpandedList(results))
      invariant forall s :: s in ExpandedList(results) <==> s in visitedOut - visited
      invariant forall j :: 0 <= j < |results| ==> ChildrenOk(c, q, results[j], maxChildren, current + 1, maxDepth)
    {
      var meta := paginated[i];
      var before := visitedOut;
      var u;
      u, visitedOut := Visit(c, q, meta, depth, maxChildren, maxDepth, recurse, before, current);
      LoopStep(results, u, visited, before, visitedOut);
      MetasSnoc(results, u);
      TakeSnoc(paginated, i);
      results := results + [u];
      i := i + 1;
    }
    assert paginated[..i] == paginated;
  }

  /** Appending a usage appends its record. */
  lemma MetasSnoc(us: seq<Usage>, u: Usage)
    ensures Metas(us + [u]) == Metas(us) + [u.meta]
  {
    assert |Metas(us + [u])| == |Metas(us) + [u.meta]|;
  }

  /** One paginated usage: expanded by a child query when recursing and its caller is new. */
  method Visit(c: Collection, q: UsageQuery, meta: Record, depth: int, maxChildren: nat, maxDepth: int,
               recurse: bool, before: set<string>, current: nat)
      returns (u: Usage, after: set<string>)
    requires current < maxDepth
    ensures u.meta == meta && before <= after
    ensures !recurse ==> after == before && ExpandedOne(u) == []
    ensures NoDuplicates(ExpandedOne(u))
    ensures forall s :: s in ExpandedOne(u) <==> s in after - before
    ensures ChildrenOk(c, q, u, maxChildren, current + 1, maxDepth)
    decreases maxDepth - current, 0
  {
    var caller := CallerSymbol(meta);
    if recurse && caller.Some? && caller.value !in before {
      var child;
      child, after := FindUsages(c, q.(symbol := caller.value), 0, maxChildren, depth, maxChildren, maxDepth,
                                 before + {caller.value}, current + 1);
      var ch := Children(child.results, child.total, |child.results|, child.total > |child.results|);
      u := Usage(meta, Some(ch));
      NoDuplicatesAppend([caller.value], ExpandedList(child.results));
      assert ExpandedOne(u) == [caller.value] + ExpandedList(child.results);
    } else {
      u := Usage(meta, None);
      after := before;
    }
  }

  /** Appending one visited usage keeps the loop's account of expanded symbols. */
  lemma LoopStep(results: seq<Usage>, u: Usage, visited: set<string>, before: set<string>, after: set<string>)
    requires NoDuplicates(ExpandedList(results)) && (forall x :: x in ExpandedList(results) <==> x in before - visited)
    requires visited <= before <= after
    requires NoDuplicates(ExpandedOne(u)) && (forall x :: x in ExpandedOne(u) <==> x in after - before)
    ensures ExpandedList(results + [u]) == ExpandedList(results) + ExpandedOne(u)
    ensures NoDuplicates(ExpandedList(results + [u]))
    ensures forall x :: x in ExpandedList(results + [u]) <==> x in after - visited
  {
    assert (results + [u])[..|results|] == results;
    NoDuplicatesAppend(ExpandedList(results), ExpandedOne(u));
  }

  /** `find_callers`: the method-call usages of a symbol, recursion off. */
  method FindCallers(c: Collection, symbol: string, offset: nat, limit: nat) returns (page: Page<Usage>)
    ensures Flat(page) == RawUsages(c, UsageQuery(symbol, Some("java_method_call"), None, true), offset, limit)
    ensures forall i :: 0 <= i < |page.results| ==> page.results[i].children.None?
  {
    var v;
    page, v := FindUsages(c, UsageQuery(symbol, Some("java_method_call"), None, true), offset, limit, 0, 10, 50, {}, 0);
    forall i | 0 <= i < |page.results| ensures page.results[i].children.None? {
      ExpandedNone(page.results, i);
    }
  }

  lemma {:induction false} ExpandedNone(us: seq<Usage>, i: int)
    requires 0 <= i < |us| && ExpandedList(us) == []
    ensures us[i].children.None?
    decreases |us|
  {
    var init := us[..|us| - 1];
    if i < |us| - 1 {
      assert init[i] == us[i];
      ExpandedNone(init, i);
    }
  }

  // ---------------------------------------------------------------------
  // Impact analysis
  // ---------------------------------------------------------------------

  /** The `pagination` key of the root of an impact tree. */
  datatype PageInfo = PageInfo(total: nat, offset: nat, limit: nat, hasMore: bool, nextOffset: Option<nat>)

  /** One level of an impact tree: a symbol, its caller counts and its analysed callers. */
  datatype ImpactNode = ImpactNode(symbol: string, depth: nat, directCallers: nat, totalUsages: nat,
                                   callers: seq<ImpactNode>, pagination: Option<PageInfo>)

  /** The module prefix `only_custom` restricts callers to. */
  const CustomModule: string := "open-auction-"

  /** The usage query run at every level: method calls of the symbol, custom modules only when asked. */
  function ImpactQuery(symbol: string, onlyCustom: bool): UsageQuery {
    UsageQuery(symbol, Some("java_method_call"), if onlyCustom then Some(CustomModule) else None, true)
  }

  /** The callers of a level's symbol, as its usage query reports them. */
  function ImpactUsages(c: Collection, symbol: string, onlyCustom: bool, limit: nat): Page<Record> {
    RawUsages(c, ImpactQuery(symbol, onlyCustom), 0, limit)
  }

  /** How many callers of one level are followed to the next. */
  const ImpactWidth: nat := 10

  /** The non-empty caller symbols named by some of the records. */
  function CallerSet(rs: seq<Record>): set<string> {
    set j | 0 <= j < |rs| && CallerSymbol(rs[j]).Some? :: CallerSymbol(rs[j]).value
  }

  /**
   * Every level of a tree reports its own symbol's usage counts, sits one
   * level below its parent, and follows only callers among the first ten
   * usages, never the symbol itself, and none past the requested depth.
   */
  predicate LevelOk(c: Collection, onlyCustom: bool, limit: nat, depth: int, n: ImpactNode)
    decreases n
  {
    var r := ImpactUsages(c, n.symbol, onlyCustom, limit);
    n.directCallers == |r.results| && n.totalUsages == r.total && n.pagination.None?
    && n.depth <= depth && (n.depth == depth ==> n.callers == [])
    && |n.callers| <= ImpactWidth
    && forall k :: 0 <= k < |n.callers| ==>
         n.callers[k].depth == n.depth + 1 && n.callers[k].symbol != n.symbol
         && n.callers[k].symbol in CallerSet(Take(r.results, ImpactWidth))
         && LevelOk(c, onlyCustom, limit, depth, n.callers[k])
  }

  /** The symbols of a tree, in the order they were analysed. */
  function TreeSymbols(n: ImpactNode): seq<string>
    decreases n, 1
  {
    [n.symbol] + TreeList(n.callers)
  }

  function TreeList(ns: seq<ImpactNode>): seq<string>
    decreases ns, 0
  {
    if |ns| == 0 then [] else TreeList(ns[..|ns| - 1]) + TreeSymbols(ns[|ns| - 1])
  }

  /**
   * `analyze_level`: nothing for a symbol already analysed or beyond the
   * depth; otherwise the symbol is marked visited, its callers are counted
   * and, above the last level, its first ten callers other than itself are
   * analysed one level deeper with the same visited set.
   */
  method AnalyzeLevel(c: Collection, onlyCustom: bool, limit: nat, depth: int, symbol: string, current: nat,
                      visited: set<string>)
      returns (node: Option<ImpactNode>, visitedOut: set<string>)
    ensures (current > depth || symbol in visited) <==> node.None?
    ensures node.None? ==> visitedOut == visited
    ensures node.Some? ==> node.value.symbol == symbol && node.value.depth == current
                           && LevelOk(c, onlyCustom, limit, depth, node.value)
    ensures visited <= visitedOut
    ensures node.Some? ==> NoDuplicates(TreeSymbols(node.value))
                           && forall s :: s in TreeSymbols(node.value) <==> s in visitedOut - visited
    decreases depth - current, 1
  {
    if current > depth || symbol in visited {
      return None, visited;
    }
    var page, _ := FindUsages(c, ImpactQuery(symbol, onlyCustom), 0, limit, 0, 10, 50, {}, 0);
    var results := Metas(page.results);
    var callers: seq<ImpactNode> := [];
    visitedOut := visited + {symbol};
    if current < depth {
      callers, visitedOut := AnalyzeCallers(c, onlyCustom, limit, depth, symbol, current,
                                            Take(results, ImpactWidth), visitedOut);
    }
    var n := ImpactNode(symbol, current, |results|, page.total, callers, None);
    NoDuplicatesAppend([symbol], TreeList(callers));
    assert TreeSymbols(n) == [symbol] + TreeList(callers);
    node := Some(n);
  }

  /** A caller subtree of `symbol` at level `current`: one level deeper, not the symbol itself, a caller listed in `rs`. */
  predicate CallerOk(c: Collection, onlyCustom: bool, limit: nat, depth: int, symbol: string, current: nat,
                     rs: seq<Record>, n: ImpactNode)
  {
    n.depth == current + 1 && n.symbol != symbol && n.symbol in CallerSet(rs) && LevelOk(c, onlyCustom, limit, depth, n)
  }

  /** The loop over the first ten callers of one level. */
  method AnalyzeCallers(c: Collection, onlyCustom: bool, limit: nat, depth: int, symbol: string, current: nat,
                        rs: seq<Record>, visited: set<string>)
      returns (callers: seq<ImpactNode>, visitedOut: set<string>)
    requires current < depth && symbol in visited
    ensures |callers| <= |rs|
    ensures visited <= visitedOut
    ensures forall k :: 0 <= k < |callers| ==> CallerOk(c, onlyCustom, limit, depth, symbol, current, rs, callers[k])
    ensures NoDuplicates(TreeList(callers)) && forall s :: s in TreeList(callers) <==> s in visitedOut - visited
    decreases depth - current, 0
  {
    callers := [];
    visitedOut := visited;
    var i := 0;
    while i < |rs|
      invariant 0 <= i <= |rs| && |callers| <= i
      invariant visited <= visitedOut
      invariant forall k :: 0 <= k < |callers| ==> CallerOk(c, onlyCustom, limit, depth, symbol, current, rs, callers[k])
      invariant NoDuplicates(TreeList(callers)) && forall s :: s in TreeList(callers) <==> s in visitedOut - visited
    {
      var caller := CallerSymbol(rs[i]);
      if caller.Some? && caller.value != symbol {
        var before := visitedOut;
        var child, v := AnalyzeLevel(c, onlyCustom, limit, depth, caller.value, current + 1, before);
        visitedOut := v;
        if child.Some? {
          assert caller.value in CallerSet(rs);
          assert CallerOk(c, onlyCustom, limit, depth, symbol, current, rs, child.value);
          TreeListStep(callers, child.value, visited, before, v);
          callers := callers + [child.value];
        }
      }
      i := i + 1;
    }
  }

  lemma TreeListStep(ns: seq<ImpactNode>, n: ImpactNode, visited: set<string>, before: set<string>, after: set<string>)
    requires NoDuplicates(TreeList(ns)) && (forall x :: x in TreeList(ns) <==> x in before - visited)
    requires visited <= before <= after
    requires NoDuplicates(TreeSymbols(n)) && (forall x :: x in TreeSymbols(n) <==> x in after - before)
    ensures NoDuplicates(TreeList(ns + [n]))
    ensures forall x :: x in TreeList(ns + [n]) <==> x in after - visited
  {
    assert (ns + [n])[..|ns|] == ns;
    NoDuplicatesAppend(TreeList(ns), TreeSymbols(n));
  }

  /**
   * `impact_analysis`: the tree from the symbol at level 0; when the root
   * has callers, only they are paginated, with the unsliced count as total.
   */
  method ImpactAnalysis(c: Collection, symbol: string, depth: int, onlyCustom: bool, offset: nat, limit: nat)
      returns (tree: Option<ImpactNode>)
    ensures tree.None? <==> depth < 0
    ensures tree.Some? ==>
      var t := tree.value;
      var r := ImpactUsages(c, symbol, onlyCustom, limit);
      t.symbol == symbol && t.depth == 0 && t.directCallers == |r.results| && t.totalUsages == r.total
      && (t.pagination.None? ==> t.callers == [])
      && (t.pagination.Some? ==>
            var pg := t.pagination.value;
            0 < pg.total <= ImpactWidth && pg.offset == offset && pg.limit == limit
            && |t.callers| == (if offset >= pg.total then 0 else Min(limit, pg.total - offset))
            && (pg.hasMore <==> offset + limit < pg.total)
            && (pg.nextOffset.Some? <==> pg.hasMore)
            && (pg.hasMore ==> pg.nextOffset == Some(offset + limit)))
      && forall k :: 0 <= k < |t.callers| ==>
           t.callers[k].depth == 1 && t.callers[k].symbol != symbol
           && LevelOk(c, onlyCustom, limit, depth, t.callers[k])
  {
    var root, _ := AnalyzeLevel(c, onlyCustom, limit, depth, symbol, 0, {});
    tree := root;
    if root.Some? && |root.value.callers| > 0 {
      var all := root.value.callers;
      var total := |all|;
      var more := offset + limit < total;
      tree := Some(root.value.(callers := Slice(all, offset, limit),
                               pagination := Some(PageInfo(total, offset, limit, more,
                                                           if more then Some(offset + limit) else None))));
    }
  }

  // ---------------------------------------------------------------------
  // Other queries
  // ---------------------------------------------------------------------

  /** `get_definition`: up to 100 declaration records of the symbol. */
  function GetDefinition(c: Collection, symbol: string): (r: seq<Record>)
    ensures |r| <= 100
    ensures forall x :: x in r ==> x in c && StrField(x, "calleeSymbol") == symbol
                                   && StrField(x, "usageType") == "java_declaration"
    ensures |Matching(c, [("calleeSymbol", symbol), ("usageType", "java_declaration")])| <= 100 ==>
      forall x :: (x in c && x.Keys >= {"calleeSymbol", "usageType"}
                   && x["calleeSymbol"] == VStr(symbol) && x["usageType"] == VStr("java_declaration")) ==> x in r
  {
    var w := [("calleeSymbol", symbol), ("usageType", "java_declaration")];
    var r := CollectionGet(c, w, 100);
    forall x | x in r ensures StrField(x, "calleeSymbol") == symbol && StrField(x, "usageType") == "java_declaration" {
      assert Satisfies(x, w) && w[0].0 == "calleeSymbol" && w[1].0 == "usageType";
    }
    forall x | x in c && x.Keys >= {"calleeSymbol", "usageType"}
               && x["calleeSymbol"] == VStr(symbol) && x["usageType"] == VStr("java_declaration")
      ensures Satisfies(x, w)
    {
    }
    r
  }

  /** `find_callees`: the method calls a symbol makes, fetched up to the end of the page. */
  function FindCallees(c: Collection, symbol: string, offset: nat, limit: nat): Page<Record> {
    Paginate(CollectionGet(c, [("callerSymbol", symbol), ("usageType", "java_method_call")], limit + offset), offset, limit)
  }

  /** The fetch stops at the page's end, so `find_callees` never reports more pages. */
  lemma FindCalleesNeverMore(c: Collection, symbol: string, offset: nat, limit: nat)
    ensures var p := FindCallees(c, symbol, offset, limit);
      p.total <= offset + limit && !p.hasMore && p.nextOffset.None?
      && forall x :: x in p.results ==>
           (x in c && StrField(x, "callerSymbol") == symbol && StrField(x, "usageType") == "java_method_call")
  {
    var w := [("callerSymbol", symbol), ("usageType", "java_method_call")];
    var f := CollectionGet(c, w, limit + offset);
    var p := FindCallees(c, symbol, offset, limit);
    forall x | x in p.results
      ensures x in c && StrField(x, "callerSymbol") == symbol && StrField(x, "usageType") == "java_method_call"
    {
      var i :| 0 <= i < |p.results| && p.results[i] == x;
      assert x in f;
      assert Satisfies(x, w) && w[0].0 == "callerSymbol" && w[1].0 == "usageType";
    }
  }

  /** The sort key of `search_by_file`: an integer `callerLine`, else 0. */
  function LineKey(r: Record): int {
    if "callerLine" in r && r["callerLine"].VInt? then r["callerLine"].i else 0
  }

  predicate SortedByLine(s: seq<Record>) {
    forall i, j :: 0 <= i < j < |s| ==> LineKey(s[i]) <= LineKey(s[j])
  }

  /** Inserts `x` after every element whose key is not larger, which keeps the sort stable. */
  function InsertByLine(x: Record, s: seq<Record>): (r: seq<Record>)
    ensures |r| == |s| + 1
    decreases |s|
  {
    if |s| == 0 then [x]
    else if LineKey(s[|s| - 1]) <= LineKey(x) then s + [x]
    else InsertByLine(x, s[..|s| - 1]) + [s[|s| - 1]]
  }

  lemma {:induction false} InsertByLineMultiset(x: Record, s: seq<Record>)
    ensures multiset(InsertByLine(x, s)) == multiset(s) + multiset{x}
    decreases |s|
  {
    if |s| > 0 && LineKey(s[|s| - 1]) > LineKey(x) {
      var init := s[..|s| - 1];
      assert s == init + [s[|s| - 1]];
      InsertByLineMultiset(x, init);
    }
  }

  lemma {:induction false} InsertByLineSorted(x: Record, s: seq<Record>)
    requires SortedByLine(s)
    ensures SortedByLine(InsertByLine(x, s))
    decreases |s|
  {
    if |s| > 0 && LineKey(s[|s| - 1]) > LineKey(x) {
      var init := s[..|s| - 1];
      var last := s[|s| - 1];
      assert s == init + [last];
      InsertByLineSorted(x, init);
      forall k | 0 <= k < |init| ensures LineKey(init[k]) <= LineKey(last) {
        assert init[k] == s[k];
      }
      InsertByLineBound(x, init, LineKey(last));
      var ri := InsertByLine(x, init);
      assert InsertByLine(x, s) == ri + [last];
    }
  }

  /** Inserting a record whose key is at most `b` among records whose keys are at most `b` keeps them so. */
  lemma {:induction false} InsertByLineBound(x: Record, s: seq<Record>, b: int)
    requires LineKey(x) <= b && forall k :: 0 <= k < |s| ==> LineKey(s[k]) <= b
    ensures forall k :: 0 <= k < |s| + 1 ==> LineKey(InsertByLine(x, s)[k]) <= b
    decreases |s|
  {
    if |s| > 0 && LineKey(s[|s| - 1]) > LineKey(x) {
      var init := s[..|s| - 1];
      forall k | 0 <= k < |init| ensures LineKey(init[k]) <= b {
        assert init[k] == s[k];
      }
      InsertByLineBound(x, init, b);
      var r := InsertByLine(x, s);
      forall k | 0 <= k < |s| + 1 ensures LineKey(r[k]) <= b {
        if k < |s| {
          assert r[k] == InsertByLine(x, init)[k];
        }
      }
    }
  }

  /** Python's stable `list.sort(key=...)` by line. */
  function SortByLine(s: seq<Record>): (r: seq<Record>)
    ensures SortedByLine(r)
    ensures multiset(r) == multiset(s)
    decreases |s|
  {
    if |s| == 0 then []
    else
      var init := s[..|s| - 1];
      assert s == init + [s[|s| - 1]];
      InsertByLineSorted(s[|s| - 1], SortByLine(init));
      InsertByLineMultiset(s[|s| - 1], SortByLine(init));
      InsertByLine(s[|s| - 1], SortByLine(init))
  }

  /** The records (of the first 10000) whose caller file path contains `path`, in order. */
  function InFile(xs: seq<Record>, path: string): (r: seq<Record>)
    ensures forall x :: x in r <==> x in xs && Contains(StrField(x, "callerUri"), path)
    decreases |xs|
  {
    if |xs| == 0 then []
    else InFile(xs[..|xs| - 1], path)
         + (if Contains(StrField(xs[|xs| - 1], "callerUri"), path) then [xs[|xs| - 1]] else [])
  }

  /** `search_by_file`: the usages recorded in a file, ordered by line, one page at a time. */
  function SearchByFile(c: Collection, path: string, offset: nat, limit: nat): Page<Record> {
    Paginate(SortByLine(InFile(Take(c, MaxFetch), path)), offset, limit)
  }

  lemma SearchByFileSpec(c: Collection, path: string, offset: nat, limit: nat)
    ensures var p := SearchByFile(c, path, offset, limit);
      var m := InFile(Take(c, MaxFetch), path);
      p.total == |m|
      && SortedByLine(p.results)
      && (forall x :: x in p.results ==> x in c && Contains(StrField(x, "callerUri"), path))
      && multiset(SortByLine(m)) == multiset(m)
  {
    var m := InFile(Take(c, MaxFetch), path);
    var s := SortByLine(m);
    PageSortedByLine(s, offset, limit);
    PageMembers(s, offset, limit);
    SameMembers(s, m);
    TakeMembers(c, MaxFetch);
  }

  /** A page of a sequence sorted by line is sorted by line. */
  lemma PageSortedByLine(s: seq<Record>, offset: nat, limit: nat)
    requires SortedByLine(s)
    ensures SortedByLine(Paginate(s, offset, limit).results)
  {
    var p := Paginate(s, offset, limit);
    forall i, j | 0 <= i < j < |p.results| ensures LineKey(p.results[i]) <= LineKey(p.results[j]) {
      assert p.results[i] == s[offset + i] && p.results[j] == s[offset + j];
    }
  }

  /** Every element of a page is an element of the paginated sequence. */
  lemma PageMembers<T>(xs: seq<T>, offset: nat, limit: nat)
    ensures forall x :: x in Paginate(xs, offset, limit).results ==> x in xs
  {
    var p := Paginate(xs, offset, limit);
    forall x | x in p.results ensures x in xs {
      var i :| 0 <= i < |p.results| && p.results[i] == x;
      assert xs[offset + i] == x;
    }
  }

  /** Every element of a prefix is an element of the whole. */
  lemma TakeMembers<T>(xs: seq<T>, n: nat)
    ensures forall x :: x in Take(xs, n) ==> x in xs
  {
    forall x | x in Take(xs, n) ensures x in xs {
      var i :| 0 <= i < |Take(xs, n)| && Take(xs, n)[i] == x;
      assert xs[i] == x;
    }
  }

  /** Two sequences with the same multiset have the same elements. */
  lemma SameMembers<T>(a: seq<T>, b: seq<T>)
    requires multiset(a) == multiset(b)
    ensures forall x :: x in a ==> x in b
  {
    forall x | x in a ensures x in b {
      assert x in multiset(a);
    }
  }

}
