/**
 * The extraction pipeline's routing of extracted entries to per-repository
 * stores (`ExtractionManager._extract_all_repos`) and its choice of which
 * repositories to extract and which caches to reuse (`extract_full`).
 * Path resolution, the extractors themselves and the file system are
 * parameters: a phase receives the entries its extractor yielded, in order.
 */
module ExtractionManager {
  import opened StringUtil
  import opened Common
  import QueryEngine

  /** One entry yielded by an extractor. */
  type Extracted = Entry

  /** The number of entries a repository's writer receives per call. */
  const FlushSize: nat := 500

  /** The path with `\` turned into `/`, as routing compares them. */
  function Normalize(p: string): (r: string)
    ensures |r| == |p| && '\\' !in r
  {
    ReplaceChar(p, '\\', '/')
  }

  /** The normalized source file an entry names (missing: empty). */
  function SourceFile(e: Extracted): string {
    Normalize(QueryEngine.StrField(e.metadata, "source_file"))
  }

  /** The first repository, from `k` on, whose normalized path starts the file's. */
  function RouteFrom(prefixes: seq<string>, file: string, k: nat): (r: Option<nat>)
    ensures r.Some? ==> k <= r.value < |prefixes| && StartsWith(file, prefixes[r.value])
                        && forall m :: k <= m < r.value ==> !StartsWith(file, prefixes[m])
    ensures r.None? ==> forall m :: k <= m < |prefixes| ==> !StartsWith(file, prefixes[m])
    decreases |prefixes| - k
  {
    if k >= |prefixes| then None
    else if StartsWith(file, prefixes[k]) then Some(k)
    else RouteFrom(prefixes, file, k + 1)
  }

  /** The repository an entry is routed to, if any. */
  function Route(prefixes: seq<string>, e: Extracted): Option<nat> {
    RouteFrom(prefixes, SourceFile(e), 0)
  }

  /** The entries, in order, that are routed to repository `j`. */
  function RoutedTo(entries: seq<Extracted>, prefixes: seq<string>, j: nat): (r: seq<Extracted>)
    ensures |r| <= |entries|
    ensures forall e :: e in r ==> e in entries && Route(prefixes, e) == Some(j)
    decreases |entries|
  {
    if |entries| == 0 then []
    else
      var last := entries[|entries| - 1];
      RoutedTo(entries[..|entries| - 1], prefixes, j) + (if Route(prefixes, last) == Some(j) then [last] else [])
  }

  lemma RoutedToSnoc(entries: seq<Extracted>, e: Extracted, prefixes: seq<string>, j: nat)
    ensures RoutedTo(entries + [e], prefixes, j)
            == RoutedTo(entries, prefixes, j) + (if Route(prefixes, e) == Some(j) then [e] else [])
  {
    assert (entries + [e])[..|entries|] == entries;
  }

  predicate IsPrefix(a: seq<Extracted>, b: seq<Extracted>) {
    |a| <= |b| && a == b[..|a|]
  }

  /** Under a limit `l`, the most entries one repository can receive: up to a batch beyond it. */
  function Cap(l: nat): nat {
    if l == 0 then 0 else l + FlushSize - 1
  }

  /**
   * One repository's state after some entries were routed to it (`routed`):
   * full flushed batches, a pending batch below 500, a count of the flushed
   * entries, and everything kept a prefix of what was routed, cut short only
   * once the count reached the limit, and never a batch beyond the limit.
   */
  predicate SlotOk(pend: seq<Extracted>, fl: seq<seq<Extracted>>, cnt: nat, routed: seq<Extracted>, limit: Option<nat>) {
    |pend| < FlushSize
    && (forall k :: 0 <= k < |fl| ==> |fl[k]| == FlushSize)
    && cnt == |Flatten(fl)|
    && IsPrefix(Flatten(fl) + pend, routed)
    && (|Flatten(fl) + pend| < |routed| ==> limit.Some? && cnt >= limit.value)
    && (limit.Some? ==> cnt + |pend| <= Cap(limit.value))
  }

  /** Keeping the entry, and flushing the batch once it is full, keeps the slot's account. */
  lemma AcceptSlot(pend: seq<Extracted>, fl: seq<seq<Extracted>>, cnt: nat, routed: seq<Extracted>,
                   limit: Option<nat>, e: Extracted)
    requires SlotOk(pend, fl, cnt, routed, limit)
    requires limit.None? || cnt < limit.value
    ensures var b := pend + [e];
      if |b| >= FlushSize then SlotOk([], fl + [b], cnt + |b|, routed + [e], limit)
      else SlotOk(b, fl, cnt, routed + [e], limit)
  {
    var acc := Flatten(fl) + pend;
    assert routed[..|routed|] == routed;
    assert acc == routed;
    var b := pend + [e];
    assert Flatten(fl) + b == routed + [e];
    if |b| >= FlushSize {
      FlattenSnoc(fl, b);
      assert Flatten(fl + [b]) + [] == routed + [e];
      assert (routed + [e])[..|routed + [e]|] == routed + [e];
    } else {
      assert (routed + [e])[..|routed + [e]|] == routed + [e];
    }
  }

  /** Dropping the entry once the count reached the limit keeps the slot's account. */
  lemma RejectSlot(pend: seq<Extracted>, fl: seq<seq<Extracted>>, cnt: nat, routed: seq<Extracted>,
                   limit: Option<nat>, e: Extracted)
    requires SlotOk(pend, fl, cnt, routed, limit)
    requires limit.Some? && cnt >= limit.value
    ensures SlotOk(pend, fl, cnt, routed + [e], limit)
  {
    var acc := Flatten(fl) + pend;
    assert (routed + [e])[..|acc|] == routed[..|acc|];
  }

  /**
   * One repository's next state when the entry `e` is routed to it: kept
   * while the flushed count is below the limit, the batch flushed once it
   * holds 500 entries.
   */
  method Keep(pend: seq<Extracted>, fl: seq<seq<Extracted>>, cnt: nat, ghost routed: seq<Extracted>,
              limit: Option<nat>, e: Extracted)
    returns (pend': seq<Extracted>, fl': seq<seq<Extracted>>, cnt': nat)
    requires SlotOk(pend, fl, cnt, routed, limit)
    ensures SlotOk(pend', fl', cnt', routed + [e], limit)
    ensures limit.Some? && cnt >= limit.value ==> pend' == pend && fl' == fl && cnt' == cnt
    ensures (limit.None? || cnt < limit.value) && |pend| + 1 < FlushSize ==> pend' == pend + [e] && fl' == fl && cnt' == cnt
    ensures (limit.None? || cnt < limit.value) && |pend| + 1 >= FlushSize ==> pend' == [] && fl' == fl + [pend + [e]]
  {
    pend', fl', cnt' := pend, fl, cnt;
    if limit.None? || cnt < limit.value {
      AcceptSlot(pend, fl, cnt, routed, limit, e);
      var batch := pend + [e];
      if |batch| >= FlushSize {
        pend', fl', cnt' := [], fl + [batch], cnt + |batch|;
      } else {
        pend' := batch;
      }
    } else {
      RejectSlot(pend, fl, cnt, routed, limit, e);
    }
  }

  /** Every repository's slot keeps its account of the entries `done`. */
  predicate SlotsOk(prefixes: seq<string>, pending: seq<seq<Extracted>>, flushed: seq<seq<seq<Extracted>>>,
                    count: seq<nat>, done: seq<Extracted>, limit: Option<nat>)
  {
    |pending| == |flushed| == |count| == |prefixes|
    && forall j :: 0 <= j < |prefixes| ==> SlotOk(pending[j], flushed[j], count[j], RoutedTo(done, prefixes, j), limit)
  }

  /** Before any entry is routed, empty slots account for nothing. */
  lemma EmptySlotsOk(prefixes: seq<string>, pending: seq<seq<Extracted>>, flushed: seq<seq<seq<Extracted>>>,
                     count: seq<nat>, limit: Option<nat>)
    requires |pending| == |flushed| == |count| == |prefixes|
    requires forall j :: 0 <= j < |prefixes| ==> pending[j] == [] && flushed[j] == [] && count[j] == 0
    ensures SlotsOk(prefixes, pending, flushed, count, [], limit)
  {
    assert Flatten<Extracted>([]) == [];
  }

  /** An entry no repository takes leaves every account as it was. */
  lemma UnroutedKeeps(prefixes: seq<string>, pending: seq<seq<Extracted>>, flushed: seq<seq<seq<Extracted>>>,
                      count: seq<nat>, done: seq<Extracted>, e: Extracted, limit: Option<nat>)
    requires SlotsOk(prefixes, pending, flushed, count, done, limit) && Route(prefixes, e).None?
    ensures SlotsOk(prefixes, pending, flushed, count, done + [e], limit)
  {
    forall j | 0 <= j < |prefixes|
      ensures SlotOk(pending[j], flushed[j], count[j], RoutedTo(done + [e], prefixes, j), limit)
    {
      RoutedToSnoc(done, e, prefixes, j);
    }
  }

  /** An entry routed to `j` changes slot `j` only, to a state accounting for it. */
  lemma RoutedKeeps(prefixes: seq<string>, pending: seq<seq<Extracted>>, flushed: seq<seq<seq<Extracted>>>,
                    count: seq<nat>, done: seq<Extracted>, e: Extracted, limit: Option<nat>,
                    j: nat, pend: seq<Extracted>, fl: seq<seq<Extracted>>, cnt: nat)
    requires SlotsOk(prefixes, pending, flushed, count, done, limit) && Route(prefixes, e) == Some(j)
    requires SlotOk(pend, fl, cnt, RoutedTo(done, prefixes, j) + [e], limit)
    ensures SlotsOk(prefixes, pending[j := pend], flushed[j := fl], count[j := cnt], done + [e], limit)
  {
    forall m | 0 <= m < |prefixes|
      ensures SlotOk(pending[j := pend][m], flushed[j := fl][m], count[j := cnt][m],
                     RoutedTo(done + [e], prefixes, m), limit)
    {
      RoutedToSnoc(done, e, prefixes, m);
      if m != j {
        assert RoutedTo(done + [e], prefixes, m) == RoutedTo(done, prefixes, m);
        assert pending[j := pend][m] == pending[m] && flushed[j := fl][m] == flushed[m] && count[j := cnt][m] == count[m];
      }
    }
  }

  /** The per-repository state of one routing phase: pending batches, flushed batches and counts. */
  class Router {
    const prefixes: seq<string>
    var pending: seq<seq<Extracted>>
    var flushed: seq<seq<seq<Extracted>>>
    var count: seq<nat>

    constructor (prefixes: seq<string>)
      ensures this.prefixes == prefixes
      ensures |pending| == |flushed| == |count| == |prefixes|
      ensures forall j :: 0 <= j < |prefixes| ==> pending[j] == [] && flushed[j] == [] && count[j] == 0
    {
      this.prefixes := prefixes;
      pending := seq(|prefixes|, _ => []);
      flushed := seq(|prefixes|, _ => []);
      count := seq(|prefixes|, _ => 0);
    }

    /** What holds of repository `j` after routing the entries `done`. */
    predicate RepoOk(done: seq<Extracted>, limit: Option<nat>, j: nat)
      requires j < |pending| == |flushed| == |count|
      reads this
    {
      SlotOk(pending[j], flushed[j], count[j], RoutedTo(done, prefixes, j), limit)
    }

    predicate RouteInv(done: seq<Extracted>, limit: Option<nat>)
      reads this
    {
      SlotsOk(prefixes, pending, flushed, count, done, limit)
    }

    /**
     * The routing phase: each entry goes to the first repository whose
     * path starts its source file, and is kept while that repository's
     * flushed count is below the limit; full batches of 500 are flushed at
     * once, the remainders when the phase ends.
     */
    method RouteAll(entries: seq<Extracted>, limit: Option<nat>)
      requires |pending| == |flushed| == |count| == |prefixes|
      requires forall j :: 0 <= j < |prefixes| ==> pending[j] == [] && flushed[j] == [] && count[j] == 0
      modifies this
      ensures |flushed| == |count| == |prefixes|
      ensures forall j, k :: 0 <= j < |prefixes| && 0 <= k < |flushed[j]| ==> 0 < |flushed[j][k]| <= FlushSize
      ensures forall j :: 0 <= j < |prefixes| ==> count[j] == |Flatten(flushed[j])|
      ensures forall j :: 0 <= j < |prefixes| ==> IsPrefix(Flatten(flushed[j]), RoutedTo(entries, prefixes, j))
      ensures limit.None? ==> forall j :: 0 <= j < |prefixes| ==> Flatten(flushed[j]) == RoutedTo(entries, prefixes, j)
      ensures limit.Some? ==> forall j :: 0 <= j < |prefixes| ==>
                count[j] <= Cap(limit.value)
                && (count[j] < |RoutedTo(entries, prefixes, j)| ==> count[j] >= limit.value)
    {
      EmptySlotsOk(prefixes, pending, flushed, count, limit);
      RouteEntries(entries, limit);
      FlushRemaining(entries, limit);
    }

    /** The loop over the entries, one `RouteOne` each. */
    method RouteEntries(entries: seq<Extracted>, limit: Option<nat>)
      requires RouteInv([], limit)
      modifies this
      ensures RouteInv(entries, limit)
    {
      var i := 0;
      ghost var done: seq<Extracted> := [];
      while i < |entries|
        invariant 0 <= i <= |entries| && done == entries[..i]
        invariant RouteInv(done, limit)
      {
        RouteOne(done, entries[i], limit);
        TakeSnoc(entries, i);
        done := done + [entries[i]];
        i := i + 1;
      }
      assert done == entries;
    }

    /** Routes one entry: kept while its repository's flushed count is below the limit, a full batch flushed. */
    method RouteOne(ghost done: seq<Extracted>, e: Extracted, limit: Option<nat>)
      requires RouteInv(done, limit)
      modifies this
      ensures RouteInv(done + [e], limit)
    {
      var r := Route(prefixes, e);
      if r.Some? {
        var j := r.value;
        assert RepoOk(done, limit, j);
        var pend, fl, cnt := Keep(pending[j], flushed[j], count[j], RoutedTo(done, prefixes, j), limit, e);
        RoutedKeeps(prefixes, pending, flushed, count, done, e, limit, j, pend, fl, cnt);
        pending, flushed, count := pending[j := pend], flushed[j := fl], count[j := cnt];
      } else {
        UnroutedKeeps(prefixes, pending, flushed, count, done, e, limit);
      }
    }

    /** The `finally` flush: every non-empty remainder is handed to its writer. */
    method FlushRemaining(entries: seq<Extracted>, limit: Option<nat>)
      requires RouteInv(entries, limit)
      modifies this
      ensures |flushed| == |count| == |prefixes|
      ensures forall j :: 0 <= j < |prefixes| ==> DoneOk(flushed[j], count[j], RoutedTo(entries, prefixes, j), limit)
    {
      var j := 0;
      while j < |prefixes|
        invariant 0 <= j <= |prefixes|
        invariant FlushState(prefixes, pending, flushed, count, entries, limit, j)
      {
        FlushStep(prefixes, pending, flushed, count, entries, limit, j);
        if |pending[j]| > 0 {
          flushed := flushed[j := flushed[j] + [pending[j]]];
          count := count[j := count[j] + |pending[j]|];
        }
        j := j + 1;
      }
    }
  }

  /** Part way through the final flush: slots from `j` on still open, those before it closed. */
  predicate FlushState(prefixes: seq<string>, pending: seq<seq<Extracted>>, flushed: seq<seq<seq<Extracted>>>,
                       count: seq<nat>, entries: seq<Extracted>, limit: Option<nat>, j: nat)
  {
    |pending| == |flushed| == |count| == |prefixes|
    && (forall m :: j <= m < |prefixes| ==> SlotOk(pending[m], flushed[m], count[m], RoutedTo(entries, prefixes, m), limit))
    && (forall m :: 0 <= m < j && m < |prefixes| ==> DoneOk(flushed[m], count[m], RoutedTo(entries, prefixes, m), limit))
  }

  /** Flushing slot `j`'s remainder, if it has one, closes that slot and leaves the others alone. */
  lemma FlushStep(prefixes: seq<string>, pending: seq<seq<Extracted>>, flushed: seq<seq<seq<Extracted>>>,
                  count: seq<nat>, entries: seq<Extracted>, limit: Option<nat>, j: nat)
    requires j < |prefixes| && FlushState(prefixes, pending, flushed, count, entries, limit, j)
    ensures var p := pending[j];
      if |p| > 0 then FlushState(prefixes, pending, flushed[j := flushed[j] + [p]], count[j := count[j] + |p|], entries, limit, j + 1)
      else FlushState(prefixes, pending, flushed, count, entries, limit, j + 1)
  {
    var p := pending[j];
    FlushSlot(p, flushed[j], count[j], RoutedTo(entries, prefixes, j), limit);
    if |p| > 0 {
      var fl, cnt := flushed[j := flushed[j] + [p]], count[j := count[j] + |p|];
      forall m | 0 <= m < |prefixes| && m != j ensures fl[m] == flushed[m] && cnt[m] == count[m] { }
    }
  }

  /** A repository's flushed batches once the phase is over: non-empty, at most 500 each, a prefix of what was routed. */
  predicate DoneOk(fl: seq<seq<Extracted>>, cnt: nat, routed: seq<Extracted>, limit: Option<nat>) {
    (forall k :: 0 <= k < |fl| ==> 0 < |fl[k]| <= FlushSize)
    && cnt == |Flatten(fl)|
    && IsPrefix(Flatten(fl), routed)
    && (|Flatten(fl)| < |routed| ==> limit.Some? && cnt >= limit.value)
    && (limit.Some? ==> cnt <= Cap(limit.value))
  }

  /** Flushing the non-empty remainder closes the slot's account. */
  lemma FlushSlot(pend: seq<Extracted>, fl: seq<seq<Extracted>>, cnt: nat, routed: seq<Extracted>, limit: Option<nat>)
    requires SlotOk(pend, fl, cnt, routed, limit)
    ensures if |pend| > 0 then DoneOk(fl + [pend], cnt + |pend|, routed, limit) else DoneOk(fl, cnt, routed, limit)
  {
    if |pend| > 0 {
      FlattenSnoc(fl, pend);
      assert Flatten(fl + [pend]) == Flatten(fl) + pend;
    } else {
      assert Flatten(fl) + pend == Flatten(fl);
    }
  }

  /** The writer a repository's entries go to. */
  datatype Target = ProjectStore | FreshCache(repo: string, version: string)

  /** A repository to extract: its name, resolved path and version. */
  datatype RepoSpec = RepoSpec(name: string, path: string, version: string)

  /** `project` writes into the project store; every other repository into its own cache, reset first. */
  function TargetFor(r: RepoSpec): (t: Target)
    ensures t == ProjectStore <==> r.name == "project"
    ensures t.FreshCache? ==> t.repo == r.name && t.version == r.version
  {
    if r.name == "project" then ProjectStore else FreshCache(r.name, r.version)
  }

  /** `_extract_all_repos`: both routing phases and what each repository's writer received. */
  method ExtractAllRepos(repos: seq<RepoSpec>, javaEntries: seq<Extracted>, xmlEntries: seq<Extracted>,
                         limit: Option<nat>)
      returns (targets: seq<Target>, java: seq<seq<seq<Extracted>>>, xml: seq<seq<seq<Extracted>>>,
               javaStats: seq<nat>, xmlStats: seq<nat>)
    ensures |targets| == |java| == |xml| == |javaStats| == |xmlStats| == |repos|
    ensures forall j :: 0 <= j < |repos| ==> targets[j] == TargetFor(repos[j])
    ensures forall j :: 0 <= j < |repos| ==> javaStats[j] == |Flatten(java[j])| && xmlStats[j] == |Flatten(xml[j])|
    ensures forall j, k :: 0 <= j < |repos| && 0 <= k < |java[j]| ==> 0 < |java[j][k]| <= FlushSize
    ensures forall j, k :: 0 <= j < |repos| && 0 <= k < |xml[j]| ==> 0 < |xml[j][k]| <= FlushSize
    ensures limit.None? ==> forall j :: 0 <= j < |repos| ==>
              Flatten(java[j]) == RoutedTo(javaEntries, Prefixes(repos), j)
              && Flatten(xml[j]) == RoutedTo(xmlEntries, Prefixes(repos), j)
    ensures limit.Some? ==> forall j :: 0 <= j < |repos| ==>
              javaStats[j] <= Cap(limit.value) && xmlStats[j] <= Cap(limit.value)
  {
    targets := seq(|repos|, j requires 0 <= j < |repos| => TargetFor(repos[j]));
    var prefixes := Prefixes(repos);
    var jr := new Router(prefixes);
    jr.RouteAll(javaEntries, limit);
    var xr := new Router(prefixes);
    xr.RouteAll(xmlEntries, limit);
    java, javaStats := jr.flushed, jr.count;
    xml, xmlStats := xr.flushed, xr.count;
  }

  /** The normalized repository paths, in the order the repositories were given. */
  function Prefixes(repos: seq<RepoSpec>): (p: seq<string>)
    ensures |p| == |repos| && forall j :: 0 <= j < |repos| ==> p[j] == Normalize(repos[j].path)
  {
    seq(|repos|, j requires 0 <= j < |repos| => Normalize(repos[j].path))
  }

  /** The repository-manager's two Axelor repositories, each with the version it is cached under. */
  function VersionFor(name: string, platformVersion: string, suiteVersion: string): string {
    if name == "platform" then platformVersion else suiteVersion
  }

  /** `extract_full`'s first phase: which caches are reused, and which repositories are extracted. */
  datatype Plan = Plan(cached: seq<RepoSpec>, toExtract: seq<RepoSpec>)

  function PlanFrom(axelor: seq<(string, string)>, platformVersion: string, suiteVersion: string,
                    reset: bool, hasCache: (string, string) -> bool, projectRoot: string): (p: Plan)
    ensures |p.toExtract| >= 1 && p.toExtract[|p.toExtract| - 1] == RepoSpec("project", projectRoot, "project")
    ensures |p.cached| + |p.toExtract| == |axelor| + 1
    ensures reset ==> p.cached == []
    ensures forall r :: r in p.cached ==> !reset && hasCache(r.name, r.version)
    ensures forall r :: r in p.toExtract[..|p.toExtract| - 1] ==> reset || !hasCache(r.name, r.version)
    decreases |axelor|
  {
    if |axelor| == 0 then Plan([], [RepoSpec("project", projectRoot, "project")])
    else
      var init := PlanFrom(axelor[..|axelor| - 1], platformVersion, suiteVersion, reset, hasCache, projectRoot);
      var r := SpecOf(axelor[|axelor| - 1], platformVersion, suiteVersion);
      var n := |init.toExtract| - 1;
      if !reset && hasCache(r.name, r.version) then Plan(init.cached + [r], init.toExtract)
      else Plan(init.cached, init.toExtract[..n] + [r] + init.toExtract[n..])
  }

  /** With reset every Axelor repository is re-extracted, in order, followed by the project. */
  lemma {:induction false} ResetExtractsAll(axelor: seq<(string, string)>, platformVersion: string, suiteVersion: string,
                                            hasCache: (string, string) -> bool, projectRoot: string)
    ensures var p := PlanFrom(axelor, platformVersion, suiteVersion, true, hasCache, projectRoot);
      |p.toExtract| == |axelor| + 1
      && forall k :: 0 <= k < |axelor| ==> p.toExtract[k] == SpecOf(axelor[k], platformVersion, suiteVersion)
    decreases |axelor|
  {
    if |axelor| > 0 {
      var init := axelor[..|axelor| - 1];
      ResetExtractsAll(init, platformVersion, suiteVersion, hasCache, projectRoot);
      var q := PlanFrom(init, platformVersion, suiteVersion, true, hasCache, projectRoot).toExtract;
      ResetStep(axelor, platformVersion, suiteVersion, hasCache, projectRoot);
      var t := PlanFrom(axelor, platformVersion, suiteVersion, true, hasCache, projectRoot).toExtract;
      ResetLift(axelor, platformVersion, suiteVersion, q, t);
    }
  }

  /** The repository spec of an Axelor `(name, path)` pair. */
  function SpecOf(a: (string, string), platformVersion: string, suiteVersion: string): (r: RepoSpec)
    ensures r.name == a.0 && r.path == a.1 && r.version == VersionFor(a.0, platformVersion, suiteVersion)
  {
    RepoSpec(a.0, a.1, VersionFor(a.0, platformVersion, suiteVersion))
  }

  /** With reset, one more Axelor repository goes in just before the project. */
  lemma ResetStep(axelor: seq<(string, string)>, platformVersion: string, suiteVersion: string,
                  hasCache: (string, string) -> bool, projectRoot: string)
    requires |axelor| > 0
    ensures var q := PlanFrom(axelor[..|axelor| - 1], platformVersion, suiteVersion, true, hasCache, projectRoot).toExtract;
      PlanFrom(axelor, platformVersion, suiteVersion, true, hasCache, projectRoot).toExtract
        == q[..|q| - 1] + [SpecOf(axelor[|axelor| - 1], platformVersion, suiteVersion)] + q[|q| - 1..]
  {
  }

  /** The induction step of `ResetExtractsAll`, on the sequences alone. */
  lemma ResetLift(axelor: seq<(string, string)>, platformVersion: string, suiteVersion: string,
                  q: seq<RepoSpec>, t: seq<RepoSpec>)
    requires |axelor| > 0 && |q| == |axelor|
    requires forall k :: 0 <= k < |axelor| - 1 ==> q[k] == SpecOf(axelor[..|axelor| - 1][k], platformVersion, suiteVersion)
    requires t == q[..|q| - 1] + [SpecOf(axelor[|axelor| - 1], platformVersion, suiteVersion)] + q[|q| - 1..]
    ensures |t| == |axelor| + 1
    ensures forall k :: 0 <= k < |axelor| ==> t[k] == SpecOf(axelor[k], platformVersion, suiteVersion)
  {
    InsertBeforeLast(q, SpecOf(axelor[|axelor| - 1], platformVersion, suiteVersion));
    forall k | 0 <= k < |axelor| - 1 ensures t[k] == SpecOf(axelor[k], platformVersion, suiteVersion) {
      assert axelor[..|axelor| - 1][k] == axelor[k];
    }
  }

  /** Inserting `r` before the last element keeps the elements before it in place. */
  lemma InsertBeforeLast<T>(q: seq<T>, r: T)
    requires |q| > 0
    ensures var t := q[..|q| - 1] + [r] + q[|q| - 1..];
      |t| == |q| + 1 && t[|q| - 1] == r && forall k :: 0 <= k < |q| - 1 ==> t[k] == q[k]
  {
  }
}
