/**
 * The source analysis service: the module a file belongs to, the search for
 * Java source directories, the cache of parsers keyed by repository set,
 * and the `/analyze` handler's per-file accounting. Parsing and symbol
 * resolution are a parameter.
 */
module JavaAstService {
  import opened Common
  import opened StringUtil

  // ---------------------------------------------------------------------
  // Modules and configuration

  const ModulesMarker: string := "/modules/"

  /** The module of a file: the path component after the first "/modules/", "unknown" when there is none. */
  function ExtractModule(filePath: string): string {
    var normalized := ReplaceChar(filePath, '\\', '/');
    var at := IndexOf(normalized, ModulesMarker);
    if at == -1 then "unknown"
    else
      var after := normalized[at + |ModulesMarker|..];
      var slash := IndexOfChar(after, '/');
      if slash == -1 then "unknown" else after[..slash]
  }

  /**
   * A file under a "modules" directory belongs to the next component, the
   * path before it being anything in which, separators normalised, no
   * earlier "/modules/" starts (one ending inside the marker included).
   */
  lemma ExtractModuleUnder(prefix: string, m: string, rest: string)
    requires !Contains(ReplaceChar(prefix, '\\', '/') + "/modules", ModulesMarker)
    requires '/' !in m && '\\' !in m
    ensures ExtractModule(prefix + ModulesMarker + m + "/" + rest) == m
  {
    var normalized := ReplaceChar(prefix + ModulesMarker + m + "/" + rest, '\\', '/');
    var q := ReplaceChar(prefix, '\\', '/') + "/modules";
    NormalizedUnder(prefix, m, rest);
    forall j | 0 <= j < |prefix| ensures !ContainsAt(normalized, ModulesMarker, j) {
      if ContainsAt(normalized, ModulesMarker, j) {
        assert normalized[j..j + 9] == q[j..j + 9];
        ContainsAtImpliesContains(q, ModulesMarker, j);
      }
    }
    var after := normalized[|prefix| + 9..];
    assert after[..|m|] == m && after[|m|] == '/';
  }

  /** The normalised path reads the normalised prefix, then the marker, then `m/`. */
  lemma NormalizedUnder(prefix: string, m: string, rest: string)
    requires '/' !in m && '\\' !in m
    ensures var normalized := ReplaceChar(prefix + ModulesMarker + m + "/" + rest, '\\', '/');
      |normalized| >= |prefix| + 10 + |m|
      && normalized[..|prefix| + 8] == ReplaceChar(prefix, '\\', '/') + "/modules"
      && ContainsAt(normalized, ModulesMarker, |prefix|)
      && normalized[|prefix| + 9..][..|m|] == m
      && normalized[|prefix| + 9..][|m|] == '/'
  {
    var p := prefix + ModulesMarker + m + "/" + rest;
    var normalized := ReplaceChar(p, '\\', '/');
    assert normalized[..|prefix| + 8] == ReplaceChar(prefix, '\\', '/') + "/modules";
    assert normalized[|prefix|..|prefix| + 9] == ModulesMarker;
    assert normalized[|prefix| + 9..][..|m|] == m;
  }

  /** Every module named is "unknown" or a single component, read right after the first "/modules/". */
  lemma ExtractModuleShape(filePath: string)
    ensures var r := ExtractModule(filePath);
      r == "unknown" || ('/' !in r && '\\' !in r && Contains(ReplaceChar(filePath, '\\', '/'), ModulesMarker + r + "/"))
  {
    var normalized := ReplaceChar(filePath, '\\', '/');
    NoBackslash(filePath);
    var at := IndexOf(normalized, ModulesMarker);
    if at != -1 {
      var after := normalized[at + 9..];
      var slash := IndexOfChar(after, '/');
      if slash != -1 {
        var r := after[..slash];
        Framed(normalized, at, r);
      }
    }
  }

  lemma NoBackslash(s: string)
    ensures '\\' !in ReplaceChar(s, '\\', '/')
  {
  }

  lemma Framed(s: string, at: int, r: string)
    requires 0 <= at && at + 9 + |r| < |s| && s[at..at + 9] == ModulesMarker
    requires r == s[at + 9..][..|r|] && s[at + 9 + |r|] == '/'
    ensures Contains(s, ModulesMarker + r + "/")
  {
    assert s[at..at + 9 + |r| + 1] == ModulesMarker + r + "/";
    ContainsAtImpliesContains(s, ModulesMarker + r + "/", at);
  }

  /** Without a "/modules/" once separators are normalised, the module is "unknown". */
  lemma ExtractModuleUnknown(filePath: string)
    ensures !Contains(ReplaceChar(filePath, '\\', '/'), ModulesMarker) ==> ExtractModule(filePath) == "unknown"
  {
    var normalized := ReplaceChar(filePath, '\\', '/');
    var at := IndexOf(normalized, ModulesMarker);
    if at != -1 {
      ContainsAtImpliesContains(normalized, ModulesMarker, at);
    }
  }

  /** The domain patterns: those the configuration lists, else "com.axelor.*" alone. */
  function DomainPatterns(configured: Option<seq<string>>): (r: seq<string>)
    ensures configured.Some? ==> r == configured.value
    ensures configured.None? ==> r == ["com.axelor.*"]
  {
    if configured.Some? then configured.value else ["com.axelor.*"]
  }

  // ---------------------------------------------------------------------
  // Finding source directories

  /** A directory entry and, for a directory, what it holds. */
  datatype Entry = Entry(name: string, isDirectory: bool, children: seq<Entry>)

  /** A Java source directory, by the suffix of its path. */
  predicate IsSourceDir(path: string) {
    EndsWith(path, "/src/main/java") || EndsWith(path, "/build/src-gen/java")
  }

  /** A child the walk enters: a directory whose name does not start with '.'. */
  predicate Entered(c: Entry) {
    c.isDirectory && !StartsWith(c.name, ".")
  }

  /**
   * `findJavaSourceDirs` below `dir` (at `path`): a source directory is
   * recorded and not entered; otherwise the entered children are searched
   * in order.
   */
  function SourceDirs(path: string, dir: Entry): seq<string>
    decreases dir, 1
  {
    if IsSourceDir(path) then [path] else ChildSourceDirs(path, dir, |dir.children|)
  }

  /** What the first `n` children of `dir` contribute. */
  function ChildSourceDirs(path: string, dir: Entry, n: nat): seq<string>
    requires n <= |dir.children|
    decreases dir, 0, n
  {
    if n == 0 then []
    else
      var c := dir.children[n - 1];
      ChildSourceDirs(path, dir, n - 1) + (if Entered(c) then SourceDirs(path + "/" + c.name, c) else [])
  }

  /** Every recorded directory is a source directory at or below the starting path. */
  lemma {:induction false} SourceDirsShape(path: string, dir: Entry)
    ensures forall r :: r in SourceDirs(path, dir) ==> IsSourceDir(r) && StartsWith(r, path)
    ensures IsSourceDir(path) ==> SourceDirs(path, dir) == [path]
    decreases dir, 1
  {
    if !IsSourceDir(path) {
      ChildSourceDirsShape(path, dir, |dir.children|);
    }
  }

  lemma {:induction false} ChildSourceDirsShape(path: string, dir: Entry, n: nat)
    requires n <= |dir.children|
    ensures forall r :: r in ChildSourceDirs(path, dir, n) ==> IsSourceDir(r) && StartsWith(r, path + "/")
    decreases dir, 0, n
  {
    if n > 0 {
      var c := dir.children[n - 1];
      ChildSourceDirsShape(path, dir, n - 1);
      if Entered(c) {
        SourceDirsShape(path + "/" + c.name, c);
        forall r | r in SourceDirs(path + "/" + c.name, c) ensures StartsWith(r, path + "/") {
          assert (path + "/" + c.name)[..|path| + 1] == path + "/";
        }
      }
    }
  }

  /** The entered children, in order. */
  function Kept(cs: seq<Entry>): seq<Entry>
    decreases |cs|
  {
    if |cs| == 0 then [] else Kept(cs[..|cs| - 1]) + (if Entered(cs[|cs| - 1]) then [cs[|cs| - 1]] else [])
  }

  lemma {:induction false} KeptPrefix(cs: seq<Entry>, n: nat)
    requires n <= |cs|
    ensures |Kept(cs[..n])| <= |Kept(cs)| && Kept(cs)[..|Kept(cs[..n])|] == Kept(cs[..n])
    decreases |cs|
  {
    if n == |cs| {
      assert cs[..n] == cs;
    } else {
      var init := cs[..|cs| - 1];
      assert cs[..n] == init[..n];
      KeptPrefix(init, n);
    }
  }

  lemma {:induction false} SkipStep(path: string, dir: Entry, kept: Entry, n: nat)
    requires kept.children == Kept(dir.children) && n <= |dir.children|
    ensures |Kept(dir.children[..n])| <= |kept.children|
    ensures ChildSourceDirs(path, kept, |Kept(dir.children[..n])|) == ChildSourceDirs(path, dir, n)
    decreases n
  {
    KeptPrefix(dir.children, n);
    if n > 0 {
      SkipStep(path, dir, kept, n - 1);
      var cs := dir.children;
      var c := cs[n - 1];
      assert cs[..n][..n - 1] == cs[..n - 1];
      var k := |Kept(cs[..n - 1])|;
      if Entered(c) {
        assert Kept(cs[..n]) == Kept(cs[..n - 1]) + [c];
        assert kept.children[k] == Kept(cs[..n])[k] == c;
      }
    }
  }

  /** Hidden entries and plain files contribute nothing: dropping them changes no result. */
  lemma SkippedChildren(path: string, dir: Entry)
    ensures SourceDirs(path, dir.(children := Kept(dir.children))) == SourceDirs(path, dir)
  {
    var kept := dir.(children := Kept(dir.children));
    SkipStep(path, dir, kept, |dir.children|);
    assert dir.children[..|dir.children|] == dir.children;
  }

  // ---------------------------------------------------------------------
  // The parser cache

  /** A path made absolute, with '\' turned into '/'. */
  function Normalized(path: string, absolute: string -> string): string {
    ReplaceChar(absolute(path), '\\', '/')
  }

  /** The cache key of a repository list: the set of its normalised paths. */
  function RepoKey(repos: seq<string>, absolute: string -> string): set<string> {
    set p | p in repos :: Normalized(p, absolute)
  }

  /** Lists naming the same repositories, in any order and with any repetition, share a key. */
  lemma RepoKeyOrderFree(xs: seq<string>, ys: seq<string>, absolute: string -> string)
    requires forall p :: p in xs <==> p in ys
    ensures RepoKey(xs, absolute) == RepoKey(ys, absolute)
  {
    forall k | k in RepoKey(xs, absolute) ensures k in RepoKey(ys, absolute) {
      var p :| p in xs && Normalized(p, absolute) == k;
      assert p in ys;
    }
    forall k | k in RepoKey(ys, absolute) ensures k in RepoKey(xs, absolute) {
      var p :| p in ys && Normalized(p, absolute) == k;
      assert p in xs;
    }
  }

  /** Parsers are numbered in creation order; the cache maps repository sets to them. */
  class ParserCache {
    var cache: map<set<string>, nat>
    var created: nat

    /** Every cached parser was created, and no two sets share one. */
    predicate Valid()
      reads this
    {
      (forall k :: k in cache ==> cache[k] < created)
      && (forall k1, k2 :: k1 in cache && k2 in cache && k1 != k2 ==> cache[k1] != cache[k2])
    }

    constructor ()
      ensures Valid() && cache == map[] && created == 0
    {
      cache, created := map[], 0;
    }

    /**
     * `getOrCreateParser`: the parser cached for the repositories' key, or
     * a new one, cached under that key.
     */
    method GetOrCreate(repos: seq<string>, absolute: string -> string) returns (parser: nat)
      requires Valid()
      modifies this
      ensures Valid()
      ensures var key := RepoKey(repos, absolute);
        key in cache && cache[key] == parser
        && (key in old(cache) ==> cache == old(cache) && created == old(created))
        && (key !in old(cache) ==> parser == old(created) && cache == old(cache)[key := parser] && created == old(created) + 1)
    {
      var key: set<string> := {};
      for i := 0 to |repos|
        invariant key == RepoKey(repos[..i], absolute)
      {
        assert repos[..i + 1] == repos[..i] + [repos[i]];
        key := key + {Normalized(repos[i], absolute)};
      }
      assert repos[..|repos|] == repos;
      if key in cache {
        return cache[key];
      }
      parser := created;
      cache := cache[key := parser];
      created := created + 1;
    }
  }

  // ---------------------------------------------------------------------
  // The `/analyze` handler

  /** What the file system says of a requested path. */
  datatype Probe = Missing | NotAFile | Unreadable | Readable

  /** One file's result: parsed, with its package and module, or failed with its errors. */
  datatype FileResult = Parsed(file: string, packageName: string, moduleName: string) | Failed(file: string, errors: seq<string>)

  /** What the parser gives for a file: its package name, or the messages of the problems it reported. */
  datatype ParseOutcome = Compiled(packageName: string) | Problems(messages: seq<string>)

  /** The result for one file, given the probe and what parsing it gives (read only for a readable file). */
  function ResultFor(path: string, probe: Probe, absolute: string -> string, parsed: ParseOutcome): FileResult {
    var file := absolute(path);
    match probe
    case Missing => Failed(file, ["IOException: File not found: " + path])
    case NotAFile => Failed(file, ["IOException: Path is not a file: " + path])
    case Unreadable => Failed(file, ["IOException: Cannot read file: " + path])
    case Readable =>
      match parsed
      case Compiled(pkg) => Parsed(file, pkg, ExtractModule(file))
      case Problems(messages) => Failed(file, messages)
  }

  function ResultsFor(files: seq<string>, probe: string -> Probe, absolute: string -> string,
                      parse: (string, nat) -> ParseOutcome, parser: nat): (r: seq<FileResult>)
    ensures |r| == |files|
    ensures forall i :: 0 <= i < |files| ==> r[i].file == absolute(files[i])
    ensures forall i :: 0 <= i < |files| && probe(files[i]) != Readable ==>
              r[i].Failed? && |r[i].errors| == 1 && StartsWith(r[i].errors[0], "IOException: ")
    ensures forall i :: 0 <= i < |files| && probe(files[i]) == Readable ==>
              match parse(files[i], parser)
              case Compiled(pkg) => r[i] == Parsed(absolute(files[i]), pkg, ExtractModule(absolute(files[i])))
              case Problems(messages) => r[i] == Failed(absolute(files[i]), messages)
  {
    seq(|files|, i requires 0 <= i < |files| =>
      ResultFor(files[i], probe(files[i]), absolute, if probe(files[i]) == Readable then parse(files[i], parser) else Problems([])))
  }

  function CountParsed(rs: seq<FileResult>): nat
    decreases |rs|
  {
    if |rs| == 0 then 0 else CountParsed(rs[..|rs| - 1]) + (if rs[|rs| - 1].Parsed? then 1 else 0)
  }

  /** Only readable files that parse count as processed, and no more of them than files. */
  lemma {:induction false} CountParsedBound(rs: seq<FileResult>)
    ensures CountParsed(rs) <= |rs|
    ensures CountParsed(rs) == |rs| <==> forall i :: 0 <= i < |rs| ==> rs[i].Parsed?
    decreases |rs|
  {
    if |rs| > 0 {
      CountParsedBound(rs[..|rs| - 1]);
      if forall i :: 0 <= i < |rs| ==> rs[i].Parsed? {
        var init := rs[..|rs| - 1];
        forall i | 0 <= i < |init| ensures init[i].Parsed? {
          assert init[i] == rs[i];
        }
      }
    }
  }

  /** A file that is not there, not a file or not readable is never processed. */
  lemma UnprobedFails(path: string, probe: Probe, absolute: string -> string, parsed: ParseOutcome)
    ensures probe != Readable ==> ResultFor(path, probe, absolute, parsed).Failed?
    ensures ResultFor(path, probe, absolute, parsed).Parsed? ==>
              ResultFor(path, probe, absolute, parsed).moduleName == ExtractModule(absolute(path))
  {
  }

  lemma ResultsForSnoc(fs: seq<string>, i: int, probe: string -> Probe, absolute: string -> string,
                       parse: (string, nat) -> ParseOutcome, parser: nat)
    requires 0 <= i < |fs|
    ensures ResultsFor(fs[..i + 1], probe, absolute, parse, parser)
            == ResultsFor(fs[..i], probe, absolute, parse, parser)
               + [ResultFor(fs[i], probe(fs[i]), absolute, if probe(fs[i]) == Readable then parse(fs[i], parser) else Problems([]))]
  {
    var a := ResultsFor(fs[..i + 1], probe, absolute, parse, parser);
    var b := ResultsFor(fs[..i], probe, absolute, parse, parser);
    assert forall k :: 0 <= k < i ==> a[k] == b[k];
  }

  lemma CountParsedSnoc(rs: seq<FileResult>, r: FileResult)
    ensures CountParsed(rs + [r]) == CountParsed(rs) + (if r.Parsed? then 1 else 0)
  {
    assert (rs + [r])[..|rs|] == rs;
  }

  /** The loop over the requested files: one result per file, in order, and the two counts. */
  method AnalyzeFiles(fs: seq<string>, probe: string -> Probe, absolute: string -> string,
                      parse: (string, nat) -> ParseOutcome, parser: nat)
      returns (results: seq<FileResult>, processed: nat, failed: nat)
    ensures results == ResultsFor(fs, probe, absolute, parse, parser)
    ensures processed == CountParsed(results) && processed + failed == |fs|
  {
    results := [];
    processed, failed := 0, 0;
    for i := 0 to |fs|
      invariant results == ResultsFor(fs[..i], probe, absolute, parse, parser)
      invariant processed == CountParsed(results) && processed + failed == i
    {
      var p := probe(fs[i]);
      var r := ResultFor(fs[i], p, absolute, if p == Readable then parse(fs[i], parser) else Problems([]));
      ResultsForSnoc(fs, i, probe, absolute, parse, parser);
      CountParsedSnoc(results, r);
      results := results + [r];
      if r.Parsed? {
        processed := processed + 1;
      } else {
        failed := failed + 1;
      }
    }
    assert fs[..|fs|] == fs;
  }

  datatype Response = Response(status: int, processed: nat, failed: nat, results: seq<FileResult>)

  /** The service's state: the parser cache and the default parser. */
  class Service {
    const parsers: ParserCache
    const defaultParser: nat

    constructor (parsers: ParserCache, defaultParser: nat)
      ensures this.parsers == parsers && this.defaultParser == defaultParser
    {
      this.parsers := parsers;
      this.defaultParser := defaultParser;
    }

    /**
     * The `/analyze` handler: only POST is served; a request without
     * `files` fails; otherwise every file has one result in order, and the
     * processed and failed counts add up to the files requested.
     */
    method Analyze(httpMethod: string, files: Option<seq<string>>, repos: Option<seq<string>>,
                   probe: string -> Probe, absolute: string -> string, parse: (string, nat) -> ParseOutcome)
      returns (resp: Response)
      requires parsers.Valid()
      modifies parsers
      ensures parsers.Valid()
      ensures httpMethod != "POST" ==> resp == Response(405, 0, 0, []) && parsers.cache == old(parsers.cache)
      ensures httpMethod == "POST" && files.None? ==> resp.status == 500 && resp.results == []
      ensures httpMethod == "POST" && repos.Some? ==> RepoKey(repos.value, absolute) in parsers.cache
      ensures httpMethod == "POST" && files.Some? ==>
        var parser := if repos.Some? then parsers.cache[RepoKey(repos.value, absolute)] else defaultParser;
        resp.status == 200
        && resp.results == ResultsFor(files.value, probe, absolute, parse, parser)
        && resp.processed == CountParsed(resp.results)
        && resp.processed + resp.failed == |files.value|
      ensures repos.None? || httpMethod != "POST" ==> parsers.created == old(parsers.created) && parsers.cache == old(parsers.cache)
      ensures repos.Some? && RepoKey(repos.value, absolute) in old(parsers.cache) ==>
                parsers.created == old(parsers.created) && parsers.cache == old(parsers.cache)
      ensures httpMethod == "POST" && repos.Some? && RepoKey(repos.value, absolute) !in old(parsers.cache) ==>
                parsers.cache == old(parsers.cache)[RepoKey(repos.value, absolute) := old(parsers.created)]
                && parsers.created == old(parsers.created) + 1
    {
      if httpMethod != "POST" {
        return Response(405, 0, 0, []);
      }
      var parser := defaultParser;
      if repos.Some? {
        parser := parsers.GetOrCreate(repos.value, absolute);
      }
      if files.None? {
        return Response(500, 0, 0, []);
      }
      var results, processed, failed := AnalyzeFiles(files.value, probe, absolute, parse, parser);
      resp := Response(200, processed, failed, results);
    }
  }
}
