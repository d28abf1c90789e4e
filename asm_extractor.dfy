/**
 * The SQLite side of `Extracteurs/ASMExtractor.py`: the symbol index
 * (FQN -> uri and package, with `fqn` as its PRIMARY KEY), the per-package
 * content hashes that decide re-indexing, the local-URI repair, batched
 * package resolution, and the rows written for analysed classes.
 *
 * The analysis service, SHA-256, UTF-8 encoding and file-system probes are
 * function parameters: `indexer`, `sha`, `utf8`, `present` and `asUri`.
 */
module AsmExtractor {
  import opened StringUtil
  import opened Common
  import opened AnalyzerRecords

  // ---------------------------------------------------------------------
  // Package content hash

  /** A `.class` file under a package's `classes` directory: path components and content. */
  datatype ClassFile = ClassFile(path: seq<string>, bytes: seq<byte>)

  /** A package directory as the index builder sees it. */
  datatype PackageDir = PackageDir(name: string, classesExists: bool, classFiles: seq<ClassFile>)

  const NoClasses: string := "no-classes"

  /**
   * The sort key of a path. Paths order by their component lists; joining
   * the components with NUL, which no file name contains and which is below
   * every other character, gives strings that order the same way.
   */
  function PathKey(path: seq<string>): string {
    Join(path, [0 as char])
  }

  /** `Path.name`: the last component. */
  function FileName(f: ClassFile): string {
    if |f.path| == 0 then "" else f.path[|f.path| - 1]
  }

  function PathKeys(files: seq<ClassFile>): (r: seq<string>)
    ensures |r| == |files|
    ensures forall i :: 0 <= i < |files| ==> r[i] == PathKey(files[i].path)
  {
    seq(|files|, i requires 0 <= i < |files| => PathKey(files[i].path))
  }

  /** The discovered files by sort key (a later duplicate would win; `rglob` yields none). */
  function FilesByPath(files: seq<ClassFile>): map<string, ClassFile>
    decreases |files|
  {
    if |files| == 0 then map[]
    else FilesByPath(files[..|files| - 1])[PathKey(files[|files| - 1].path) := files[|files| - 1]]
  }

  predicate DistinctPaths(files: seq<ClassFile>) {
    forall i, j :: 0 <= i < j < |files| ==> PathKey(files[i].path) != PathKey(files[j].path)
  }

  lemma {:induction false} FilesByPathSpec(files: seq<ClassFile>)
    requires DistinctPaths(files)
    ensures forall k :: k in FilesByPath(files) <==> k in PathKeys(files)
    ensures forall i :: 0 <= i < |files| ==> FilesByPath(files)[PathKeys(files)[i]] == files[i]
    decreases |files|
  {
    if |files| > 0 {
      var n := |files| - 1;
      var init := files[..n];
      var keys := PathKeys(files);
      var initKeys := PathKeys(init);
      assert forall i :: 0 <= i < n ==> init[i] == files[i] && initKeys[i] == keys[i];
      assert keys == initKeys + [keys[n]];
      FilesByPathSpec(init);
      var m := FilesByPath(files);
      assert m == FilesByPath(init)[keys[n] := files[n]];
      forall i | 0 <= i < |files| ensures m[keys[i]] == files[i] {
        if i < n {
          assert keys[i] != keys[n];
          assert FilesByPath(init)[initKeys[i]] == init[i];
        }
      }
    }
  }

  /** The bytes fed to the hasher: for each key in order, the file name then the content. */
  function HashStream(keys: seq<string>, byPath: map<string, ClassFile>, utf8: string -> seq<byte>): seq<byte>
    decreases |keys|
  {
    if |keys| == 0 then []
    else
      (if keys[0] in byPath then utf8(FileName(byPath[keys[0]])) + byPath[keys[0]].bytes else [])
      + HashStream(keys[1..], byPath, utf8)
  }

  /**
   * `_compute_package_hash`: "no-classes" for a missing directory, otherwise
   * the digest of every file's name and bytes in sorted path order.
   */
  function PackageHash(classesExists: bool, files: seq<ClassFile>, utf8: string -> seq<byte>,
                       sha: seq<byte> -> string): string
  {
    if !classesExists then NoClasses
    else sha(HashStream(SortedDistinct(PathKeys(files)), FilesByPath(files), utf8))
  }

  /** The hash does not depend on the order in which the files were discovered. */
  lemma {:induction false} PackageHashOrderIndependent(a: seq<ClassFile>, b: seq<ClassFile>,
                                    utf8: string -> seq<byte>, sha: seq<byte> -> string)
    requires DistinctPaths(a) && DistinctPaths(b)
    requires forall f :: f in a <==> f in b
    ensures PackageHash(true, a, utf8, sha) == PackageHash(true, b, utf8, sha)
  {
    KeysIncluded(a, b);
    KeysIncluded(b, a);
    SortedDistinctCanonical(PathKeys(a), PathKeys(b));
    SameFilesByPath(a, b);
  }

  /** Every path key of `a` is one of `b` when `b` holds every file of `a`. */
  lemma KeysIncluded(a: seq<ClassFile>, b: seq<ClassFile>)
    requires forall f :: f in a ==> f in b
    ensures forall k :: k in PathKeys(a) ==> k in PathKeys(b)
  {
    forall k | k in PathKeys(a) ensures k in PathKeys(b) {
      var i :| 0 <= i < |a| && PathKeys(a)[i] == k;
      assert a[i] in b;
      var j :| 0 <= j < |b| && b[j] == a[i];
      assert PathKeys(b)[j] == k;
    }
  }

  /** The same files with distinct paths give the same map by path, whatever their order. */
  lemma SameFilesByPath(a: seq<ClassFile>, b: seq<ClassFile>)
    requires DistinctPaths(a) && DistinctPaths(b)
    requires forall f :: f in a <==> f in b
    ensures FilesByPath(a) == FilesByPath(b)
  {
    FilesByPathSpec(a);
    FilesByPathSpec(b);
    KeysIncluded(a, b);
    KeysIncluded(b, a);
    forall k | k in FilesByPath(a) ensures FilesByPath(a)[k] == FilesByPath(b)[k] {
      var i :| 0 <= i < |a| && PathKeys(a)[i] == k;
      assert a[i] in b;
      var j :| 0 <= j < |b| && b[j] == a[i];
      assert PathKeys(b)[j] == k;
    }
  }

  // ---------------------------------------------------------------------
  // The symbol_index and index_metadata tables

  /** A row of `symbol_index`; the primary key `fqn` is the map key. */
  datatype Symbol = Symbol(uri: string, package: string)

  /** A symbol reported by the index endpoint. */
  datatype SymbolInput = SymbolInput(fqn: string, uri: string)

  /** `DELETE FROM symbol_index WHERE package = ?`. */
  function DropPackage(m: map<string, Symbol>, pkg: string): map<string, Symbol>
  {
    map fqn | fqn in m && m[fqn].package != pkg :: m[fqn]
  }

  /** One `INSERT OR REPLACE` per symbol, in order; a reused FQN changes owner. */
  function PutAll(m: map<string, Symbol>, syms: seq<SymbolInput>, pkg: string): map<string, Symbol>
    decreases |syms|
  {
    if |syms| == 0 then m
    else PutAll(m, syms[..|syms| - 1], pkg)[syms[|syms| - 1].fqn := Symbol(syms[|syms| - 1].uri, pkg)]
  }

  /** The table after `_store_symbols(syms, pkg, _)`. */
  function StoredSymbols(m: map<string, Symbol>, syms: seq<SymbolInput>, pkg: string): map<string, Symbol>
  {
    PutAll(DropPackage(m, pkg), syms, pkg)
  }

  lemma PutAllSpec(m: map<string, Symbol>, syms: seq<SymbolInput>, pkg: string)
    ensures var r := PutAll(m, syms, pkg);
      && (forall i :: 0 <= i < |syms| ==> syms[i].fqn in r && r[syms[i].fqn].package == pkg)
      && (forall i :: 0 <= i < |syms| && (forall j :: i < j < |syms| ==> syms[j].fqn != syms[i].fqn) ==>
            r[syms[i].fqn].uri == syms[i].uri)
      && (forall fqn :: fqn in r ==> fqn in m || exists i :: 0 <= i < |syms| && syms[i].fqn == fqn)
      && (forall fqn :: fqn in m && (forall i :: 0 <= i < |syms| ==> syms[i].fqn != fqn) ==> fqn in r && r[fqn] == m[fqn])
  {
    PutAllOwned(m, syms, pkg);
    PutAllLastUri(m, syms, pkg);
    PutAllKeys(m, syms, pkg);
    PutAllKeeps(m, syms, pkg);
  }

  /** Every symbol given ends up in the table, owned by `pkg`. */
  lemma {:induction false} PutAllOwned(m: map<string, Symbol>, syms: seq<SymbolInput>, pkg: string)
    ensures var r := PutAll(m, syms, pkg);
      forall i :: 0 <= i < |syms| ==> syms[i].fqn in r && r[syms[i].fqn].package == pkg
    decreases |syms|
  {
    if |syms| > 0 {
      var init := syms[..|syms| - 1];
      PutAllOwned(m, init, pkg);
      var r := PutAll(m, syms, pkg);
      forall i | 0 <= i < |syms| ensures syms[i].fqn in r && r[syms[i].fqn].package == pkg {
        if i < |init| {
          assert init[i] == syms[i];
        }
      }
    }
  }

  /** A symbol not repeated later keeps its own uri. */
  lemma {:induction false} PutAllLastUri(m: map<string, Symbol>, syms: seq<SymbolInput>, pkg: string)
    ensures var r := PutAll(m, syms, pkg);
      forall i :: 0 <= i < |syms| && (forall j :: i < j < |syms| ==> syms[j].fqn != syms[i].fqn) ==>
        syms[i].fqn in r && r[syms[i].fqn].uri == syms[i].uri
    decreases |syms|
  {
    if |syms| > 0 {
      var init := syms[..|syms| - 1];
      PutAllLastUri(m, init, pkg);
      var r := PutAll(m, syms, pkg);
      forall i | 0 <= i < |syms| && (forall j :: i < j < |syms| ==> syms[j].fqn != syms[i].fqn)
        ensures syms[i].fqn in r && r[syms[i].fqn].uri == syms[i].uri
      {
        if i < |init| {
          assert init[i] == syms[i];
          assert syms[|syms| - 1].fqn != syms[i].fqn;
          forall j | i < j < |init| ensures init[j].fqn != init[i].fqn {
            assert init[j] == syms[j];
          }
        }
      }
    }
  }

  /** Every row of the result was there before or comes from a symbol given. */
  lemma {:induction false} PutAllKeys(m: map<string, Symbol>, syms: seq<SymbolInput>, pkg: string)
    ensures var r := PutAll(m, syms, pkg);
      forall fqn :: fqn in r ==> fqn in m || exists i :: 0 <= i < |syms| && syms[i].fqn == fqn
    decreases |syms|
  {
    if |syms| > 0 {
      var init := syms[..|syms| - 1];
      PutAllKeys(m, init, pkg);
      var r := PutAll(m, syms, pkg);
      forall fqn | fqn in r ensures fqn in m || exists i :: 0 <= i < |syms| && syms[i].fqn == fqn {
        if fqn != syms[|syms| - 1].fqn && fqn !in m {
          var i :| 0 <= i < |init| && init[i].fqn == fqn;
          assert syms[i] == init[i];
        }
      }
    }
  }

  /** A row no symbol names is left as it was. */
  lemma {:induction false} PutAllKeeps(m: map<string, Symbol>, syms: seq<SymbolInput>, pkg: string)
    ensures var r := PutAll(m, syms, pkg);
      forall fqn :: fqn in m && (forall i :: 0 <= i < |syms| ==> syms[i].fqn != fqn) ==> fqn in r && r[fqn] == m[fqn]
    decreases |syms|
  {
    if |syms| > 0 {
      var init := syms[..|syms| - 1];
      PutAllKeeps(m, init, pkg);
      var r := PutAll(m, syms, pkg);
      forall fqn | fqn in m && (forall i :: 0 <= i < |syms| ==> syms[i].fqn != fqn) ensures fqn in r && r[fqn] == m[fqn] {
        forall i | 0 <= i < |init| ensures init[i].fqn != fqn {
          assert init[i] == syms[i];
        }
      }
    }
  }

  /**
   * After `_store_symbols(syms, pkg, _)` the rows owned by `pkg` are exactly
   * the symbols given, each with the uri of its last occurrence. A row of
   * another package survives unless one of the symbols reuses its FQN, in
   * which case the row now belongs to `pkg`.
   */
  lemma StoredSymbolsSpec(m: map<string, Symbol>, syms: seq<SymbolInput>, pkg: string)
    ensures var r := StoredSymbols(m, syms, pkg);
      && (forall fqn :: fqn in r && r[fqn].package == pkg <==> exists i :: 0 <= i < |syms| && syms[i].fqn == fqn)
      && (forall i :: 0 <= i < |syms| && (forall j :: i < j < |syms| ==> syms[j].fqn != syms[i].fqn) ==>
            r[syms[i].fqn] == Symbol(syms[i].uri, pkg))
      && (forall fqn :: fqn in m && m[fqn].package != pkg && (forall i :: 0 <= i < |syms| ==> syms[i].fqn != fqn) ==>
            fqn in r && r[fqn] == m[fqn])
      && (forall fqn :: fqn in r && r[fqn].package != pkg ==> fqn in m && r[fqn] == m[fqn])
  {
    PutAllSpec(DropPackage(m, pkg), syms, pkg);
  }

  /**
   * `_needs_reindex`: False without a `classes` directory, True when no hash
   * is stored for the package, otherwise True iff the hash changed.
   */
  function NeedsReindex(hashes: map<string, string>, dir: PackageDir,
                        utf8: string -> seq<byte>, sha: seq<byte> -> string): bool
  {
    if !dir.classesExists then false
    else if dir.name !in hashes then true
    else PackageHash(true, dir.classFiles, utf8, sha) != hashes[dir.name]
  }

  /** Both tables the index builder writes. */
  datatype IndexTables = IndexTables(symbols: map<string, Symbol>, hashes: map<string, string>)

  /** One turn of the `build_symbol_index` loop. */
  function BuildStep(t: IndexTables, dir: PackageDir, indexer: PackageDir -> seq<SymbolInput>,
                     utf8: string -> seq<byte>, sha: seq<byte> -> string): IndexTables
  {
    if !NeedsReindex(t.hashes, dir, utf8, sha) then t
    else
      var syms := indexer(dir);
      if syms == [] then t
      else IndexTables(StoredSymbols(t.symbols, syms, dir.name),
                       t.hashes[dir.name := PackageHash(dir.classesExists, dir.classFiles, utf8, sha)])
  }

  function BuildFold(t: IndexTables, dirs: seq<PackageDir>, indexer: PackageDir -> seq<SymbolInput>,
                     utf8: string -> seq<byte>, sha: seq<byte> -> string): IndexTables
    decreases |dirs|
  {
    if |dirs| == 0 then t
    else BuildStep(BuildFold(t, dirs[..|dirs| - 1], indexer, utf8, sha), dirs[|dirs| - 1], indexer, utf8, sha)
  }

  /**
   * The gate: a rejected package is left as it was; a hash is stored only
   * for an accepted package whose indexing returned symbols, and then it is
   * the package's current hash, so the same content is rejected next time.
   */
  lemma BuildStepGate(t: IndexTables, dir: PackageDir, indexer: PackageDir -> seq<SymbolInput>,
                      utf8: string -> seq<byte>, sha: seq<byte> -> string)
    ensures var r := BuildStep(t, dir, indexer, utf8, sha);
      && (!NeedsReindex(t.hashes, dir, utf8, sha) ==> r == t)
      && (r.hashes != t.hashes ==> NeedsReindex(t.hashes, dir, utf8, sha) && indexer(dir) != [])
      && (r != t ==> r.hashes == t.hashes[dir.name := PackageHash(true, dir.classFiles, utf8, sha)])
      && !NeedsReindex(r.hashes, dir, utf8, sha) <== (NeedsReindex(t.hashes, dir, utf8, sha) && indexer(dir) != [])
  {
  }

  /** Without a `classes` directory a package is never indexed. */
  lemma NoClassesNeverIndexed(t: IndexTables, dirs: seq<PackageDir>, indexer: PackageDir -> seq<SymbolInput>,
                              utf8: string -> seq<byte>, sha: seq<byte> -> string)
    requires forall i :: 0 <= i < |dirs| ==> !dirs[i].classesExists
    ensures BuildFold(t, dirs, indexer, utf8, sha) == t
  {
    if |dirs| > 0 {
      NoClassesNeverIndexed(t, dirs[..|dirs| - 1], indexer, utf8, sha);
    }
  }

  // ---------------------------------------------------------------------
  // Module names

  predicate IsDigitOrDot(c: char) {
    IsDigit(c) || c == '.'
  }

  /** A '-' at `k >= 1` followed by a digit or '.': where `(.+?)-[\d.]+` can stop its group. */
  predicate VersionDashAt(s: string, k: int) {
    1 <= k && k + 1 < |s| && s[k] == '-' && IsDigitOrDot(s[k + 1])
  }

  /** The first version dash at or after `i`; `.` does not match a newline, so the scan stops there. */
  function FirstVersionDash(s: string, i: nat): (r: Option<nat>)
    requires 1 <= i
    ensures r.Some? ==> i <= r.value && VersionDashAt(s, r.value) && '\n' !in s[i..r.value]
    ensures r.Some? ==> forall j :: i <= j < r.value ==> !VersionDashAt(s, j)
    ensures r.None? ==> forall j :: i <= j && VersionDashAt(s, j) ==> '\n' in s[i..j]
    decreases |s| - i
  {
    if i + 1 >= |s| then None
    else if s[i] == '\n' then
      assert forall j :: i < j <= |s| ==> s[i..j][0] == '\n';
      None
    else if VersionDashAt(s, i) then Some(i)
    else
      var r := FirstVersionDash(s, i + 1);
      assert forall j :: i + 1 <= j <= |s| ==> s[i..j] == [s[i]] + s[i + 1..j];
      r
  }

  /** Where the lazy group `^(.+?)` of `^(.+?)-[\d.]+` ends, if the pattern matches. */
  function LazyVersionMatch(s: string): (r: Option<nat>)
    ensures r.Some? ==> VersionDashAt(s, r.value) && '\n' !in s[..r.value]
    ensures r.Some? ==> forall j :: 0 <= j < r.value ==> !VersionDashAt(s, j)
    ensures r.None? ==> forall j :: VersionDashAt(s, j) ==> '\n' in s[..j]
  {
    if |s| == 0 || s[0] == '\n' then
      assert forall j :: 0 < j <= |s| ==> s[..j][0] == s[0];
      None
    else
      var r := FirstVersionDash(s, 1);
      assert forall j :: 1 <= j <= |s| ==> s[..j] == [s[0]] + s[1..j];
      r
  }

  /** The lazy match's tail `.*$`: no newline, except possibly as the very last character. */
  predicate TailMatches(t: string) {
    forall j :: 0 <= j < |t| - 1 ==> t[j] != '\n'
  }

  /**
   * `_extract_module_name`: `re.match(r'^(.+?)-[\d.]+.*$', p)` keeps the
   * group, and a name without a version suffix is returned unchanged.
   */
  function ExtractModuleName(p: string): (r: string)
  {
    match LazyVersionMatch(p)
    case Some(k) => if TailMatches(p[k + 1..]) then p[..k] else p
    case None => p
  }

  /**
   * The name is either the input or the text before the FIRST '-' (after
   * the first character) that is followed by a digit or a dot.
   */
  lemma ExtractModuleNameSpec(p: string)
    ensures var r := ExtractModuleName(p);
      r == p || (VersionDashAt(p, |r|) && r == p[..|r|] && forall j :: 0 <= j < |r| ==> !VersionDashAt(p, j))
    ensures '\n' !in p ==> (ExtractModuleName(p) == p <==> forall j :: !VersionDashAt(p, j))
  {
    var m := LazyVersionMatch(p);
    if '\n' !in p && m.Some? {
      assert TailMatches(p[m.value + 1..]);
      assert |ExtractModuleName(p)| < |p|;
    }
  }

  /** Concrete cases of the lazy match: the group stops at the first dash before a digit. */
  lemma ExtractModuleNameVersioned()
    ensures ExtractModuleName("open-auction-base-1.0.0") == "open-auction-base"
  {
    LazyVersionMatchAt("open-auction-base-1.0.0", 17);
  }

  lemma ExtractModuleNameLazy()
    ensures ExtractModuleName("lib-2fa-1.0") == "lib"
  {
    LazyVersionMatchAt("lib-2fa-1.0", 3);
  }

  /** The lazy group ends at the first version dash when no newline comes before it. */
  lemma LazyVersionMatchAt(s: string, k: nat)
    requires VersionDashAt(s, k) && '\n' !in s[..k]
    requires forall j :: 0 <= j < k ==> !VersionDashAt(s, j)
    ensures LazyVersionMatch(s) == Some(k)
  {
  }

  /**
   * The module name `_fix_local_package_uris` takes: `re.match(r'^(.+?)-[\d.]+', p)`,
   * the same lazy group without the anchored tail; `None` when it does not match.
   */
  function ModuleNameForFix(p: string): (r: Option<string>)
    ensures r.Some? ==> VersionDashAt(p, |r.value|) && r.value == p[..|r.value|]
  {
    match LazyVersionMatch(p)
    case Some(k) => Some(p[..k])
    case None => None
  }

  /** Where both patterns match, they agree. */
  lemma ModuleNamesAgree(p: string)
    requires ModuleNameForFix(p).Some? && '\n' !in p
    ensures ExtractModuleName(p) == ModuleNameForFix(p).value
  {
    var k := LazyVersionMatch(p).value;
    assert TailMatches(p[k + 1..]);
  }

  // ---------------------------------------------------------------------
  // Local URIs

  /** A probed location: a directory (as components) and a relative file path, "" for the directory itself. */
  datatype FsPath = FsPath(dir: seq<string>, rel: string)

  /** `Path.parent`: drop the last component (the root is its own parent). */
  function Parent(p: seq<string>): seq<string> {
    if |p| == 0 then [] else p[..|p| - 1]
  }

  /**
   * The class part of a symbol FQN in `_build_local_uri`: the text before the
   * first '(', without its last dotted segment when that segment starts with
   * a lower-case letter (a method name).
   */
  function ClassFqnOf(fqn: string): string
  {
    ClassPart(Split(fqn, '(')[0])
  }

  /** `c` without its last dotted segment when that segment starts with a lower-case letter. */
  function ClassPart(c: string): string
  {
    if '.' in c then
      var parts := Split(c, '.');
      var last := parts[|parts| - 1];
      if last != "" && IsAsciiLower(last[0]) then Join(parts[..|parts| - 1], ".") else c
    else c
  }

  lemma {:induction false} SplitFirstPiece(s: string, c: char)
    ensures Split(s, c)[0] == (if c in s then s[..IndexOfChar(s, c)] else s)
  {
  }

  /** `ClassPart` cuts `c` at its last '.' exactly when the segment after it starts with a lower-case letter. */
  lemma {:induction false} ClassPartSpec(c: string)
    ensures ClassPart(c) == c || ClassPart(c) == c[..LastIndexOfChar(c, '.')]
    ensures ClassPart(c) != c <==>
              '.' in c && var last := c[LastIndexOfChar(c, '.') + 1..]; last != "" && IsAsciiLower(last[0])
  {
    if '.' in c {
      var k := LastIndexOfChar(c, '.');
      var parts := Split(c, '.');
      assert "." == ['.'];
      JoinSplitInit(c, '.');
      assert |c[..k]| < |c|;
    }
  }

  /** `ClassFqnOf` keeps the text before the first '(' or cuts it at its last '.'. */
  lemma {:induction false} ClassFqnOfSpec(fqn: string)
    ensures var c := if '(' in fqn then fqn[..IndexOfChar(fqn, '(')] else fqn;
      '(' !in c
      && (ClassFqnOf(fqn) == c || ClassFqnOf(fqn) == c[..LastIndexOfChar(c, '.')])
      && (ClassFqnOf(fqn) != c <==>
            '.' in c && var last := c[LastIndexOfChar(c, '.') + 1..]; last != "" && IsAsciiLower(last[0]))
  {
    SplitFirstPiece(fqn, '(');
    ClassPartSpec(Split(fqn, '(')[0]);
  }

  /** Where `_build_local_uri` looks, in order; src-gen only for a model class (".db."). */
  function LocalUriCandidates(fqn: string, modulePath: seq<string>): (r: seq<FsPath>)
    ensures |r| >= 1
  {
    var cls := ClassFqnOf(fqn);
    var rel := ReplaceChar(cls, '.', '/') + ".java";
    var srcMain := FsPath(modulePath + ["src", "main", "java"], rel);
    if Contains(cls, ".db.") then
      [FsPath(Parent(Parent(modulePath)) + ["build", "src-gen", "java"], rel),
       FsPath(modulePath + ["build", "src-gen", "java"], rel),
       srcMain]
    else [srcMain]
  }

  /** The URI of the first existing candidate. */
  function FirstExisting(candidates: seq<FsPath>, present: FsPath -> bool, asUri: FsPath -> string): Option<string>
    decreases |candidates|
  {
    if |candidates| == 0 then None
    else if present(candidates[0]) then Some(asUri(candidates[0]))
    else FirstExisting(candidates[1..], present, asUri)
  }

  /** `_build_local_uri`, written as the source's branches. */
  function LocalUri(fqn: string, modulePath: seq<string>, present: FsPath -> bool, asUri: FsPath -> string): Option<string>
  {
    var cls := ClassFqnOf(fqn);
    var rel := ReplaceChar(cls, '.', '/') + ".java";
    var rootSrcGen := FsPath(Parent(Parent(modulePath)) + ["build", "src-gen", "java"], rel);
    var moduleSrcGen := FsPath(modulePath + ["build", "src-gen", "java"], rel);
    var srcMain := FsPath(modulePath + ["src", "main", "java"], rel);
    if Contains(cls, ".db.") && present(rootSrcGen) then Some(asUri(rootSrcGen))
    else if Contains(cls, ".db.") && present(moduleSrcGen) then Some(asUri(moduleSrcGen))
    else if present(srcMain) then Some(asUri(srcMain))
    else None
  }

  /**
   * The branches amount to "the first existing candidate", and the relative
   * path is the class FQN with '.' mapped to '/' plus ".java".
   */
  lemma LocalUriFirstExisting(fqn: string, modulePath: seq<string>, present: FsPath -> bool, asUri: FsPath -> string)
    ensures LocalUri(fqn, modulePath, present, asUri) == FirstExisting(LocalUriCandidates(fqn, modulePath), present, asUri)
    ensures forall c :: c in LocalUriCandidates(fqn, modulePath) ==>
              c.rel == ReplaceChar(ClassFqnOf(fqn), '.', '/') + ".java" && '.' !in c.rel[..|c.rel| - 5]
    ensures (|LocalUriCandidates(fqn, modulePath)| > 1) <==> Contains(ClassFqnOf(fqn), ".db.")
  {
    var cands := LocalUriCandidates(fqn, modulePath);
    if Contains(ClassFqnOf(fqn), ".db.") {
      assert cands[1..][1..] == [cands[2]];
      assert FirstExisting([cands[2]], present, asUri) == if present(cands[2]) then Some(asUri(cands[2])) else None
        by { assert [cands[2]][1..] == []; }
      assert FirstExisting(cands[1..], present, asUri)
        == if present(cands[1]) then Some(asUri(cands[1])) else FirstExisting([cands[2]], present, asUri);
    } else {
      assert cands[1..] == [];
    }
    var rel := ReplaceChar(ClassFqnOf(fqn), '.', '/') + ".java";
    assert rel[..|rel| - 5] == ReplaceChar(ClassFqnOf(fqn), '.', '/');
    assert '.' !in ReplaceChar(ClassFqnOf(fqn), '.', '/');
    assert forall c :: c in cands ==> c.rel == rel;
  }

  /** The repaired row for `fqn`: a new URI is written only when it is non-empty and differs. */
  function FixedSymbol(fqn: string, row: Symbol, modulePath: seq<string>,
                       present: FsPath -> bool, asUri: FsPath -> string): Symbol
  {
    match LocalUri(fqn, modulePath, present, asUri)
    case Some(u) => if u != "" && u != row.uri then Symbol(u, row.package) else row
    case None => row
  }

  /** The rows of `pkg` whose FQN is in `done` repaired, every other row as it was. */
  function FixUrisIn(m: map<string, Symbol>, pkg: string, done: set<string>, modulePath: seq<string>,
                     present: FsPath -> bool, asUri: FsPath -> string): map<string, Symbol>
  {
    map fqn | fqn in m ::
      if fqn in done && m[fqn].package == pkg then FixedSymbol(fqn, m[fqn], modulePath, present, asUri) else m[fqn]
  }

  lemma FixUrisInStep(m: map<string, Symbol>, pkg: string, done: set<string>, fqn: string, modulePath: seq<string>,
                      present: FsPath -> bool, asUri: FsPath -> string)
    requires fqn in m && m[fqn].package == pkg && fqn !in done
    ensures FixUrisIn(m, pkg, done + {fqn}, modulePath, present, asUri)
         == FixUrisIn(m, pkg, done, modulePath, present, asUri)[fqn := FixedSymbol(fqn, m[fqn], modulePath, present, asUri)]
  {
  }

  lemma FixUrisInAll(m: map<string, Symbol>, pkg: string, done: set<string>, modulePath: seq<string>,
                     present: FsPath -> bool, asUri: FsPath -> string)
    requires forall fqn :: fqn in m && m[fqn].package == pkg ==> fqn in done
    ensures FixUrisIn(m, pkg, done, modulePath, present, asUri) == FixUris(m, pkg, modulePath, present, asUri)
  {
  }

  /** `_fix_local_package_uris` for one package's rows at `modulePath`. */
  function FixUris(m: map<string, Symbol>, pkg: string, modulePath: seq<string>,
                   present: FsPath -> bool, asUri: FsPath -> string): map<string, Symbol>
  {
    FixUrisIn(m, pkg, m.Keys, modulePath, present, asUri)
  }

  /**
   * A row changes only if it belongs to the package and the new URI is
   * non-empty and differs, and then only its uri changes; repeating the
   * repair changes nothing.
   */
  lemma FixUrisSpec(m: map<string, Symbol>, pkg: string, modulePath: seq<string>,
                    present: FsPath -> bool, asUri: FsPath -> string)
    ensures var r := FixUris(m, pkg, modulePath, present, asUri);
      && r.Keys == m.Keys
      && (forall fqn :: fqn in m ==> r[fqn].package == m[fqn].package)
      && (forall fqn :: fqn in m && r[fqn] != m[fqn] ==>
            m[fqn].package == pkg && LocalUri(fqn, modulePath, present, asUri) == Some(r[fqn].uri)
            && r[fqn].uri != "" && r[fqn].uri != m[fqn].uri)
      && (forall fqn :: (fqn in m && m[fqn].package == pkg && LocalUri(fqn, modulePath, present, asUri).Some?
                          && LocalUri(fqn, modulePath, present, asUri).value != "") ==>
            r[fqn].uri == LocalUri(fqn, modulePath, present, asUri).value)
      && FixUris(r, pkg, modulePath, present, asUri) == r
  {
  }

  /** The repair loop over `local_packages`, inside an existing `modules` directory. */
  function FixPackages(m: map<string, Symbol>, projectRoot: seq<string>, pkgs: seq<string>,
                       present: FsPath -> bool, asUri: FsPath -> string): map<string, Symbol>
    decreases |pkgs|
  {
    if |pkgs| == 0 then m
    else
      var before := FixPackages(m, projectRoot, pkgs[..|pkgs| - 1], present, asUri);
      var pkg := pkgs[|pkgs| - 1];
      match ModuleNameForFix(pkg)
      case None => before
      case Some(name) =>
        var modulePath := projectRoot + ["modules", name];
        if present(FsPath(modulePath, "")) then FixUris(before, pkg, modulePath, present, asUri) else before
  }

  /** The repair never adds or removes a row or changes a row's package. */
  lemma {:induction false} FixPackagesKeepsRows(m: map<string, Symbol>, projectRoot: seq<string>, pkgs: seq<string>,
                                                present: FsPath -> bool, asUri: FsPath -> string)
    ensures var r := FixPackages(m, projectRoot, pkgs, present, asUri);
      r.Keys == m.Keys && forall fqn :: fqn in m ==> r[fqn].package == m[fqn].package
    decreases |pkgs|
  {
    if |pkgs| > 0 {
      var before := FixPackages(m, projectRoot, pkgs[..|pkgs| - 1], present, asUri);
      FixPackagesKeepsRows(m, projectRoot, pkgs[..|pkgs| - 1], present, asUri);
      match ModuleNameForFix(pkgs[|pkgs| - 1])
      case None =>
      case Some(name) =>
        FixUrisSpec(before, pkgs[|pkgs| - 1], projectRoot + ["modules", name], present, asUri);
    }
  }

  // ---------------------------------------------------------------------
  // Package resolution

  /**
   * `_resolve_packages_batch`: each FQN of `fqns` found in the index, mapped
   * to its package; with a non-empty `allowed`, only rows of those packages.
   */
  function ResolvePackagesBatch(symbols: map<string, Symbol>, fqns: set<string>, allowed: seq<string>): map<string, string>
  {
    if fqns == {} then map[]
    else map fqn | fqn in fqns && fqn in symbols && (allowed == [] || symbols[fqn].package in allowed) :: symbols[fqn].package
  }

  /**
   * The result is keyed by requested FQNs only, and every value is the
   * indexed package (so lies in `allowed` when that is given). Right after
   * `_store_symbols(syms, pkg, _)` every stored FQN resolves to `pkg`
   * unless a filter excludes it.
   */
  lemma ResolvePackagesBatchSpec(symbols: map<string, Symbol>, fqns: set<string>, allowed: seq<string>)
    ensures var r := ResolvePackagesBatch(symbols, fqns, allowed);
      && r.Keys <= fqns
      && (forall fqn :: fqn in r ==> fqn in symbols && r[fqn] == symbols[fqn].package)
      && (allowed != [] ==> forall fqn :: fqn in r ==> r[fqn] in allowed)
      && (forall fqn :: fqn in fqns && fqn in symbols && (allowed == [] || symbols[fqn].package in allowed) ==> fqn in r)
  {
  }

  lemma ResolveAfterStore(m: map<string, Symbol>, syms: seq<SymbolInput>, pkg: string, allowed: seq<string>, i: int)
    requires 0 <= i < |syms|
    requires allowed == [] || pkg in allowed
    ensures var r := ResolvePackagesBatch(StoredSymbols(m, syms, pkg), {syms[i].fqn}, allowed);
      syms[i].fqn in r && r[syms[i].fqn] == pkg
  {
    StoredSymbolsSpec(m, syms, pkg);
    assert syms[i].fqn in StoredSymbols(m, syms, pkg) && StoredSymbols(m, syms, pkg)[syms[i].fqn].package == pkg;
  }

  // ---------------------------------------------------------------------
  // Rows written for analysed classes (`_store_extraction_results`)

  /** A row of the extractor's `nodes` table; `fqn` is the primary key and `package` is NOT NULL. */
  datatype AsmNode = AsmNode(nodeType: string, package: string, line: Option<int>)

  /** A row of the extractor's `edges` table; both packages are NOT NULL and only `id` is unique. */
  datatype AsmEdge = AsmEdge(fromFqn: string, edgeType: string, toFqn: string, kind: string,
                             fromPackage: string, toPackage: string, fromLine: Option<int>)

  /** An entry of `nodes_batch`; its package may be missing. */
  datatype NodeRow = NodeRow(fqn: string, nodeType: string, package: Option<string>, line: Option<int>)

  /** An entry of `edges_batch`; its packages may be missing. */
  datatype EdgeRow = EdgeRow(fromFqn: string, edgeType: string, toFqn: string, kind: string,
                             fromPackage: Option<string>, toPackage: Option<string>, fromLine: Option<int>)

  /** `fqn_to_package.get(fqn)`. */
  function Lookup(p: map<string, string>, fqn: string): (r: Option<string>)
    ensures r.Some? <==> fqn in p
  {
    if fqn in p then Some(p[fqn]) else None
  }

  /** `.get(key, default)` on an optional string value. */
  function OrDefault(v: Option<string>, default: string): string {
    if v.Some? then v.value else default
  }

  /** The FQNs one class contributes to `target_fqns`; empty or missing type names are not added. */
  function ClassTargets(c: ClassRecord): seq<string> {
    [c.fqn]
    + FlatMap(c.methods, (m: MethodRecord) => [m.fqn])
    + FlatMap(c.inheritance, (h: InheritanceRecord) => [h.fqn])
    + FlatMap(c.methods, (m: MethodRecord) =>
        (if TruthyStr(m.returnType) then [m.returnType.value] else [])
        + FlatMap(m.arguments, (a: string) => if a != "" then [a] else [])
        + FlatMap(m.calls, (k: CallRecord) => [k.toFqn]))
    + FlatMap(c.fields, (f: FieldRecord) => if TruthyStr(f.fieldType) then [f.fieldType.value] else [])
  }

  function TargetFqns(classes: seq<ClassRecord>): set<string> {
    set x | x in FlatMap(classes, ClassTargets)
  }

  /** The one-query package lookup of `_store_extraction_results`. */
  function StorePackages(symbols: map<string, Symbol>, classes: seq<ClassRecord>): map<string, string> {
    ResolvePackagesBatch(symbols, TargetFqns(classes), [])
  }

  function ClassNodeRow(c: ClassRecord, p: map<string, string>): NodeRow {
    NodeRow(c.fqn, "class", Lookup(p, c.fqn), None)
  }

  function MethodNodeRow(m: MethodRecord, p: map<string, string>): NodeRow {
    NodeRow(m.fqn, "method", Lookup(p, m.fqn), m.lineNumber)
  }

  /** An inheritance edge, kept only when the parent resolved to a non-empty package. */
  function InheritanceEdge(c: ClassRecord, h: InheritanceRecord, p: map<string, string>): seq<EdgeRow> {
    var pp := Lookup(p, h.fqn);
    if TruthyStr(pp) then [EdgeRow(c.fqn, "inheritance", h.fqn, AsciiLower(OrDefault(h.kind, "extends")),
                                   Lookup(p, c.fqn), pp, None)]
    else []
  }

  /** A field's type is a member of the class ('attribute'), when the type is given and resolved. */
  function FieldEdge(c: ClassRecord, f: FieldRecord, p: map<string, string>): seq<EdgeRow> {
    if TruthyStr(f.fieldType) && TruthyStr(Lookup(p, f.fieldType.value)) then
      [EdgeRow(f.fieldType.value, "member_of", c.fqn, "attribute", Lookup(p, f.fieldType.value), Lookup(p, c.fqn), None)]
    else []
  }

  function ArgumentEdge(m: MethodRecord, a: string, p: map<string, string>): seq<EdgeRow> {
    if a != "" && TruthyStr(Lookup(p, a)) then
      [EdgeRow(a, "member_of", m.fqn, "argument", Lookup(p, a), Lookup(p, m.fqn), None)]
    else []
  }

  function CallEdge(m: MethodRecord, k: CallRecord, p: map<string, string>): seq<EdgeRow> {
    var tp := Lookup(p, k.toFqn);
    if TruthyStr(tp) then
      [EdgeRow(m.fqn, "call", k.toFqn, AsciiLower(OrDefault(k.kind, "invoke")), Lookup(p, m.fqn), tp, k.lineNumber)]
    else []
  }

  /** The method's membership edge (always), then its return, argument and call edges. */
  function MethodEdges(c: ClassRecord, m: MethodRecord, p: map<string, string>): seq<EdgeRow> {
    [EdgeRow(m.fqn, "member_of", c.fqn, "method", Lookup(p, m.fqn), Lookup(p, c.fqn), None)]
    + (if TruthyStr(m.returnType) && TruthyStr(Lookup(p, m.returnType.value)) then
         [EdgeRow(m.returnType.value, "member_of", m.fqn, "return", Lookup(p, m.returnType.value), Lookup(p, m.fqn), None)]
       else [])
    + FlatMap(m.arguments, ArgumentEdgeFn(m, p))
    + FlatMap(m.calls, CallEdgeFn(m, p))
  }

  /** The edges of one class before its methods: inheritance, then fields. */
  function ClassHeadEdges(c: ClassRecord, p: map<string, string>): seq<EdgeRow> {
    FlatMap(c.inheritance, InheritanceEdgeFn(c, p))
    + FlatMap(c.fields, FieldEdgeFn(c, p))
  }

  function ClassNodeRows(c: ClassRecord, p: map<string, string>): seq<NodeRow> {
    [ClassNodeRow(c, p)] + FlatMap(c.methods, MethodNodeRowFn(p))
  }

  function ClassEdgeRows(c: ClassRecord, p: map<string, string>): seq<EdgeRow> {
    ClassHeadEdges(c, p) + FlatMap(c.methods, MethodEdgesFn(c, p))
  }

  // The per-element steps of the nested loops, as function values.
  function ArgumentEdgeFn(m: MethodRecord, p: map<string, string>): string -> seq<EdgeRow> {
    (a: string) => ArgumentEdge(m, a, p)
  }

  function CallEdgeFn(m: MethodRecord, p: map<string, string>): CallRecord -> seq<EdgeRow> {
    (k: CallRecord) => CallEdge(m, k, p)
  }

  function MethodEdgesFn(c: ClassRecord, p: map<string, string>): MethodRecord -> seq<EdgeRow> {
    (m: MethodRecord) => MethodEdges(c, m, p)
  }

  function InheritanceEdgeFn(c: ClassRecord, p: map<string, string>): InheritanceRecord -> seq<EdgeRow> {
    (h: InheritanceRecord) => InheritanceEdge(c, h, p)
  }

  function FieldEdgeFn(c: ClassRecord, p: map<string, string>): FieldRecord -> seq<EdgeRow> {
    (f: FieldRecord) => FieldEdge(c, f, p)
  }

  function MethodNodeRowFn(p: map<string, string>): MethodRecord -> seq<NodeRow> {
    (m: MethodRecord) => [MethodNodeRow(m, p)]
  }

  function ClassNodeRowsFn(p: map<string, string>): ClassRecord -> seq<NodeRow> {
    (c: ClassRecord) => ClassNodeRows(c, p)
  }

  function ClassEdgeRowsFn(p: map<string, string>): ClassRecord -> seq<EdgeRow> {
    (c: ClassRecord) => ClassEdgeRows(c, p)
  }

  /** `nodes_batch` for the whole answer. */
  function NodeBatch(classes: seq<ClassRecord>, p: map<string, string>): seq<NodeRow> {
    FlatMap(classes, ClassNodeRowsFn(p))
  }

  /** `edges_batch` for the whole answer. */
  function EdgeBatch(classes: seq<ClassRecord>, p: map<string, string>): seq<EdgeRow> {
    FlatMap(classes, ClassEdgeRowsFn(p))
  }

  /** `INSERT OR IGNORE INTO nodes`, row by row: a present FQN or a missing package skips the row. */
  function IgnoreNodes(m: map<string, AsmNode>, rows: seq<NodeRow>): map<string, AsmNode>
    decreases |rows|
  {
    if |rows| == 0 then m
    else
      var before := IgnoreNodes(m, rows[..|rows| - 1]);
      var r := rows[|rows| - 1];
      if r.fqn in before || r.package.None? then before
      else before[r.fqn := AsmNode(r.nodeType, r.package.value, r.line)]
  }

  /** `INSERT OR IGNORE INTO edges`: only rows missing a package are skipped; duplicates are kept. */
  function IgnoreEdges(rows: seq<EdgeRow>): seq<AsmEdge>
    decreases |rows|
  {
    if |rows| == 0 then []
    else
      var r := rows[|rows| - 1];
      IgnoreEdges(rows[..|rows| - 1])
      + (if r.fromPackage.Some? && r.toPackage.Some? then
           [AsmEdge(r.fromFqn, r.edgeType, r.toFqn, r.kind, r.fromPackage.value, r.toPackage.value, r.fromLine)]
         else [])
  }

  /** The membership row of a method in its class. */
  predicate IsMethodMembership(r: EdgeRow) {
    r.edgeType == "member_of" && r.kind == "method"
  }

  predicate NotMembership(r: EdgeRow) {
    !IsMethodMembership(r)
  }

  /** The package of the endpoint that had to resolve: the parent or callee, or the member type. */
  function ResolvedSide(r: EdgeRow): Option<string> {
    if r.edgeType == "member_of" then r.fromPackage else r.toPackage
  }

  function CountMemberships(rows: seq<EdgeRow>): nat
    decreases |rows|
  {
    if |rows| == 0 then 0
    else CountMemberships(rows[..|rows| - 1]) + (if IsMethodMembership(rows[|rows| - 1]) then 1 else 0)
  }

  function MethodCount(classes: seq<ClassRecord>): nat
    decreases |classes|
  {
    if |classes| == 0 then 0 else MethodCount(classes[..|classes| - 1]) + |classes[|classes| - 1].methods|
  }

  lemma {:induction false} CountMembershipsAppend(a: seq<EdgeRow>, b: seq<EdgeRow>)
    ensures CountMemberships(a + b) == CountMemberships(a) + CountMemberships(b)
    decreases |b|
  {
    if |b| > 0 {
      var ab := a + b;
      var last := b[|b| - 1];
      assert ab[..|ab| - 1] == a + b[..|b| - 1];
      assert ab[|ab| - 1] == last;
      CountMembershipsAppend(a, b[..|b| - 1]);
      assert CountMemberships(ab) == CountMemberships(a + b[..|b| - 1]) + (if IsMethodMembership(last) then 1 else 0);
    } else {
      assert a + b == a;
    }
  }

  lemma {:induction false} NoMemberships(rows: seq<EdgeRow>)
    requires forall r :: r in rows ==> !IsMethodMembership(r)
    ensures CountMemberships(rows) == 0
    decreases |rows|
  {
    if |rows| > 0 {
      NoMemberships(rows[..|rows| - 1]);
    }
  }

  /** A method contributes exactly one membership row. */
  lemma MethodEdgesOneMembership(c: ClassRecord, m: MethodRecord, p: map<string, string>)
    ensures CountMemberships(MethodEdges(c, m, p)) == 1
  {
    var head := [EdgeRow(m.fqn, "member_of", c.fqn, "method", Lookup(p, m.fqn), Lookup(p, c.fqn), None)];
    var rest := MethodEdges(c, m, p)[1..];
    assert MethodEdges(c, m, p) == head + rest;
    forall r | r in rest ensures NotMembership(r) {
      FlatMapAll(m.arguments, ArgumentEdgeFn(m, p), NotMembership);
      FlatMapAll(m.calls, CallEdgeFn(m, p), NotMembership);
    }
    NoMemberships(rest);
    CountMembershipsAppend(head, rest);
    assert head[..0] == [];
  }

  lemma {:induction false} MethodsMemberships(c: ClassRecord, ms: seq<MethodRecord>, p: map<string, string>)
    ensures CountMemberships(FlatMap(ms, MethodEdgesFn(c, p))) == |ms|
    decreases |ms|
  {
    if |ms| > 0 {
      var f := MethodEdgesFn(c, p);
      MethodsMemberships(c, ms[..|ms| - 1], p);
      CountMembershipsAppend(FlatMap(ms[..|ms| - 1], f), f(ms[|ms| - 1]));
      MethodEdgesOneMembership(c, ms[|ms| - 1], p);
    }
  }

  /** `edges_batch` holds exactly one membership row per method of the answer. */
  lemma {:induction false} EdgeBatchMemberships(classes: seq<ClassRecord>, p: map<string, string>)
    ensures CountMemberships(EdgeBatch(classes, p)) == MethodCount(classes)
    decreases |classes|
  {
    if |classes| > 0 {
      var c := classes[|classes| - 1];
      var init := classes[..|classes| - 1];
      EdgeBatchMemberships(init, p);
      assert EdgeBatch(classes, p) == EdgeBatch(init, p) + ClassEdgeRows(c, p);
      CountMembershipsAppend(EdgeBatch(init, p), ClassEdgeRows(c, p));
      ClassMemberships(c, p);
    }
  }

  /** A class's rows hold one membership row per method of the class. */
  lemma ClassMemberships(c: ClassRecord, p: map<string, string>)
    ensures CountMemberships(ClassEdgeRows(c, p)) == |c.methods|
  {
    FlatMapAll(c.inheritance, InheritanceEdgeFn(c, p), NotMembership);
    FlatMapAll(c.fields, FieldEdgeFn(c, p), NotMembership);
    NoMemberships(ClassHeadEdges(c, p));
    CountMembershipsAppend(ClassHeadEdges(c, p), FlatMap(c.methods, MethodEdgesFn(c, p)));
    MethodsMemberships(c, c.methods, p);
  }

  /** A row other than a membership row whose endpoint did not resolve. */
  predicate Justified(r: EdgeRow) {
    IsMethodMembership(r) || TruthyStr(ResolvedSide(r))
  }

  lemma ClassEdgeRowsJustified(c: ClassRecord, p: map<string, string>)
    ensures forall r :: r in ClassEdgeRows(c, p) ==> Justified(r)
  {
    FlatMapAll(c.inheritance, InheritanceEdgeFn(c, p), Justified);
    FlatMapAll(c.fields, FieldEdgeFn(c, p), Justified);
    forall i | 0 <= i < |c.methods| ensures forall r :: r in MethodEdges(c, c.methods[i], p) ==> Justified(r) {
      var m := c.methods[i];
      FlatMapAll(m.arguments, ArgumentEdgeFn(m, p), Justified);
      FlatMapAll(m.calls, CallEdgeFn(m, p), Justified);
    }
    FlatMapAll(c.methods, MethodEdgesFn(c, p), Justified);
  }

  /**
   * Every inheritance, attribute, return, argument and call row has a
   * target that resolved to a non-empty package; only membership rows can
   * lack one.
   */
  lemma EdgeBatchJustified(classes: seq<ClassRecord>, p: map<string, string>)
    ensures forall r :: r in EdgeBatch(classes, p) ==> Justified(r)
  {
    forall i | 0 <= i < |classes| ensures forall r :: r in ClassEdgeRows(classes[i], p) ==> Justified(r) {
      ClassEdgeRowsJustified(classes[i], p);
    }
    FlatMapAll(classes, ClassEdgeRowsFn(p), Justified);
  }

  /** Each method's membership row is in the batch. */
  lemma MembershipInBatch(classes: seq<ClassRecord>, p: map<string, string>, i: int, j: int)
    requires 0 <= i < |classes| && 0 <= j < |classes[i].methods|
    ensures var c := classes[i]; var m := c.methods[j];
      EdgeRow(m.fqn, "member_of", c.fqn, "method", Lookup(p, m.fqn), Lookup(p, c.fqn), None) in EdgeBatch(classes, p)
  {
    var c := classes[i];
    var m := c.methods[j];
    var row := EdgeRow(m.fqn, "member_of", c.fqn, "method", Lookup(p, m.fqn), Lookup(p, c.fqn), None);
    assert row in MethodEdges(c, m, p);
    FlatMapMember(c.methods, MethodEdgesFn(c, p), row);
    assert row in ClassEdgeRows(c, p);
    FlatMapMember(classes, ClassEdgeRowsFn(p), row);
  }

  /**
   * `INSERT OR IGNORE INTO nodes` never changes an existing node; it adds
   * the FQN of every row with a package, and nothing else.
   */
  lemma {:induction false} IgnoreNodesSpec(m: map<string, AsmNode>, rows: seq<NodeRow>)
    ensures var r := IgnoreNodes(m, rows);
      && (forall k :: k in m ==> k in r && r[k] == m[k])
      && (forall i :: 0 <= i < |rows| && rows[i].package.Some? ==> rows[i].fqn in r)
      && (forall k :: k in r && k !in m ==> exists i :: 0 <= i < |rows| && rows[i].fqn == k && rows[i].package.Some?
                                                      && r[k] == AsmNode(rows[i].nodeType, rows[i].package.value, rows[i].line))
    decreases |rows|
  {
    if |rows| > 0 {
      var init := rows[..|rows| - 1];
      IgnoreNodesSpec(m, init);
      var before := IgnoreNodes(m, init);
      var r := IgnoreNodes(m, rows);
      forall k | k in r && k !in m
        ensures exists i :: 0 <= i < |rows| && rows[i].fqn == k && rows[i].package.Some?
                            && r[k] == AsmNode(rows[i].nodeType, rows[i].package.value, rows[i].line)
      {
        if k in before {
          var i :| 0 <= i < |init| && init[i].fqn == k && init[i].package.Some?
                   && before[k] == AsmNode(init[i].nodeType, init[i].package.value, init[i].line);
          assert rows[i] == init[i];
        } else {
          assert rows[|rows| - 1].fqn == k;
        }
      }
      forall i | 0 <= i < |rows| && rows[i].package.Some? ensures rows[i].fqn in r {
        if i < |init| {
          assert rows[i] == init[i];
        }
      }
    }
  }

  /** The stored edges are exactly the batch rows that carry both packages, in order. */
  lemma {:induction false} IgnoreEdgesSpec(rows: seq<EdgeRow>, e: AsmEdge)
    ensures |IgnoreEdges(rows)| <= |rows|
    ensures e in IgnoreEdges(rows) <==>
      exists i :: 0 <= i < |rows| && rows[i].fromPackage.Some? && rows[i].toPackage.Some?
        && e == AsmEdge(rows[i].fromFqn, rows[i].edgeType, rows[i].toFqn, rows[i].kind,
                        rows[i].fromPackage.value, rows[i].toPackage.value, rows[i].fromLine)
    decreases |rows|
  {
    if |rows| > 0 {
      var init := rows[..|rows| - 1];
      IgnoreEdgesSpec(init, e);
      assert forall i :: 0 <= i < |init| ==> rows[i] == init[i];
    }
  }

  /** The inner loop of `_store_extraction_results` over one class's methods. */
  method CollectMethodRows(c: ClassRecord, p: map<string, string>) returns (ns: seq<NodeRow>, es: seq<EdgeRow>)
    ensures ns == FlatMap(c.methods, MethodNodeRowFn(p))
    ensures es == FlatMap(c.methods, MethodEdgesFn(c, p))
  {
    ns, es := [], [];
    var j := 0;
    while j < |c.methods|
      invariant 0 <= j <= |c.methods|
      invariant ns == FlatMap(c.methods[..j], MethodNodeRowFn(p))
      invariant es == FlatMap(c.methods[..j], MethodEdgesFn(c, p))
    {
      FlatMapSnoc(c.methods, j, MethodNodeRowFn(p));
      FlatMapSnoc(c.methods, j, MethodEdgesFn(c, p));
      ns := ns + [MethodNodeRow(c.methods[j], p)];
      es := es + MethodEdges(c, c.methods[j], p);
      j := j + 1;
    }
    assert c.methods[..j] == c.methods;
  }

  /** The loops of `_store_extraction_results` that fill `nodes_batch` and `edges_batch`. */
  method CollectBatches(classes: seq<ClassRecord>, p: map<string, string>)
    returns (nodesBatch: seq<NodeRow>, edgesBatch: seq<EdgeRow>)
    ensures nodesBatch == NodeBatch(classes, p)
    ensures edgesBatch == EdgeBatch(classes, p)
  {
    nodesBatch, edgesBatch := [], [];
    var i := 0;
    while i < |classes|
      invariant 0 <= i <= |classes|
      invariant nodesBatch == NodeBatch(classes[..i], p)
      invariant edgesBatch == EdgeBatch(classes[..i], p)
    {
      var c := classes[i];
      var ns, es := CollectMethodRows(c, p);
      FlatMapSnoc(classes, i, ClassNodeRowsFn(p));
      FlatMapSnoc(classes, i, ClassEdgeRowsFn(p));
      nodesBatch := nodesBatch + ([ClassNodeRow(c, p)] + ns);
      edgesBatch := edgesBatch + (ClassHeadEdges(c, p) + es);
      i := i + 1;
    }
    assert classes[..i] == classes;
  }

  // ---------------------------------------------------------------------
  // Package assignment in `extract_project`

  /** Every FQN `extract_project` collects from the answer (a missing field type adds nothing). */
  function ProjectTargets(c: ClassRecord): seq<string> {
    [c.fqn]
    + FlatMap(c.inheritance, (h: InheritanceRecord) => [h.fqn])
    + FlatMap(c.fields, (f: FieldRecord) => if f.fieldType.Some? then [f.fieldType.value] else [])
    + FlatMap(c.methods, (m: MethodRecord) =>
        [m.fqn]
        + (if TruthyStr(m.returnType) then [m.returnType.value] else [])
        + m.arguments
        + FlatMap(m.calls, (k: CallRecord) => [k.toFqn]))
  }

  function AllFqns(classes: seq<ClassRecord>): set<string> {
    set x | x in FlatMap(classes, ProjectTargets)
  }

  function ClassFqns(classes: seq<ClassRecord>, n: int): set<string>
    requires 0 <= n <= |classes|
  {
    set k | 0 <= k < n :: classes[k].fqn
  }

  function MethodFqns(classes: seq<ClassRecord>, n: int): set<string>
    requires 0 <= n <= |classes|
  {
    set k, l | 0 <= k < n && 0 <= l < |classes[k].methods| :: classes[k].methods[l].fqn
  }

  function MethodFqnsOf(ms: seq<MethodRecord>, n: int): set<string>
    requires 0 <= n <= |ms|
  {
    set l | 0 <= l < n :: ms[l].fqn
  }

  /** The resolved packages, plus `pp` for every FQN of `own` that did not resolve. */
  function Assigned(resolved: map<string, string>, own: set<string>, pp: string): map<string, string> {
    map fqn | fqn in resolved.Keys + own :: if fqn in resolved then resolved[fqn] else pp
  }

  lemma MethodFqnsStep(classes: seq<ClassRecord>, i: int)
    requires 0 <= i < |classes|
    ensures MethodFqns(classes, i + 1) == MethodFqns(classes, i) + MethodFqnsOf(classes[i].methods, |classes[i].methods|)
  {
    var ms := classes[i].methods;
    forall x | x in MethodFqnsOf(ms, |ms|) ensures x in MethodFqns(classes, i + 1) {
      var l :| 0 <= l < |ms| && ms[l].fqn == x;
      assert classes[i].methods[l].fqn == x;
    }
  }

  /** Giving `x` the project package unless it already has one. */
  lemma AssignedAdd(resolved: map<string, string>, own: set<string>, x: string, pp: string)
    ensures var a := Assigned(resolved, own, pp);
      Assigned(resolved, own + {x}, pp) == if x in a then a else a[x := pp]
  {
  }

  /** One more method FQN of `ms` given the project package unless it already has one. */
  lemma AssignedMethodStep(resolved: map<string, string>, own: set<string>, ms: seq<MethodRecord>, j: int, pp: string)
    requires 0 <= j < |ms|
    ensures var a := Assigned(resolved, own + MethodFqnsOf(ms, j), pp);
      Assigned(resolved, own + MethodFqnsOf(ms, j + 1), pp) == if ms[j].fqn in a then a else a[ms[j].fqn := pp]
  {
    assert MethodFqnsOf(ms, j + 1) == MethodFqnsOf(ms, j) + {ms[j].fqn};
    assert own + MethodFqnsOf(ms, j + 1) == (own + MethodFqnsOf(ms, j)) + {ms[j].fqn};
    AssignedAdd(resolved, own + MethodFqnsOf(ms, j), ms[j].fqn, pp);
  }

  /** The inner loop of step 3 over one class's methods. */
  method AssignMethodPackages(ms: seq<MethodRecord>, pk0: map<string, string>, ghost resolved: map<string, string>,
                              ghost own: set<string>, projectPackage: string)
    returns (pk: map<string, string>)
    requires pk0 == Assigned(resolved, own, projectPackage)
    ensures pk == Assigned(resolved, own + MethodFqnsOf(ms, |ms|), projectPackage)
  {
    pk := pk0;
    var j := 0;
    while j < |ms|
      invariant 0 <= j <= |ms|
      invariant pk == Assigned(resolved, own + MethodFqnsOf(ms, j), projectPackage)
    {
      AssignedMethodStep(resolved, own, ms, j, projectPackage);
      if ms[j].fqn !in pk {
        pk := pk[ms[j].fqn := projectPackage];
      }
      j := j + 1;
    }
  }

  /** What the loop of step 3 keeps after `i` classes. */
  predicate AssignInvariant(classes: seq<ClassRecord>, i: int, resolved: map<string, string>, projectPackage: string,
                            projectUri: string -> Option<string>, pk: map<string, string>, syms: seq<SymbolInput>)
    requires 0 <= i <= |classes|
  {
    && pk == Assigned(resolved, ClassFqns(classes, i) + MethodFqns(classes, i), projectPackage)
    && (forall s :: s in syms ==>
          s.fqn in ClassFqns(classes, i) && s.fqn !in resolved && projectUri(s.fqn) == Some(s.uri) && s.uri != "")
    && FoundUpTo(classes, i, resolved, MethodFqns(classes, |classes|), projectUri, syms)
  }

  /**
   * Step 3 of `extract_project`: every class and method FQN that did not
   * resolve gets the project package, and each such class whose source was
   * found becomes a project symbol.
   */
  method AssignProjectPackages(classes: seq<ClassRecord>, resolved: map<string, string>, projectPackage: string,
                               projectUri: string -> Option<string>)
    returns (pk: map<string, string>, projectSymbols: seq<SymbolInput>)
    ensures pk == Assigned(resolved, ClassFqns(classes, |classes|) + MethodFqns(classes, |classes|), projectPackage)
    ensures forall s :: s in projectSymbols ==>
              s.fqn in ClassFqns(classes, |classes|) && s.fqn !in resolved && projectUri(s.fqn) == Some(s.uri) && s.uri != ""
    ensures forall k :: 0 <= k < |classes| && classes[k].fqn !in resolved
                        && classes[k].fqn !in MethodFqns(classes, |classes|) && TruthyStr(projectUri(classes[k].fqn)) ==>
              classes[k].fqn in SymbolFqns(projectSymbols)
  {
    pk, projectSymbols := resolved, [];
    AssignStart(classes, resolved, projectPackage, projectUri);
    var i := 0;
    while i < |classes|
      invariant 0 <= i <= |classes|
      invariant AssignInvariant(classes, i, resolved, projectPackage, projectUri, pk, projectSymbols)
    {
      pk, projectSymbols := AssignStep(classes, i, resolved, projectPackage, projectUri, pk, projectSymbols);
      i := i + 1;
    }
    AssignEnd(classes, i, resolved, projectPackage, projectUri, pk, projectSymbols);
  }

  /** After the last class the invariant of step 3 is what the step promises. */
  lemma AssignEnd(classes: seq<ClassRecord>, i: int, resolved: map<string, string>, projectPackage: string,
                  projectUri: string -> Option<string>, pk: map<string, string>, syms: seq<SymbolInput>)
    requires i == |classes| && AssignInvariant(classes, i, resolved, projectPackage, projectUri, pk, syms)
    ensures pk == Assigned(resolved, ClassFqns(classes, |classes|) + MethodFqns(classes, |classes|), projectPackage)
    ensures forall s :: s in syms ==>
              s.fqn in ClassFqns(classes, |classes|) && s.fqn !in resolved && projectUri(s.fqn) == Some(s.uri) && s.uri != ""
    ensures forall k :: 0 <= k < |classes| && classes[k].fqn !in resolved
                        && classes[k].fqn !in MethodFqns(classes, |classes|) && TruthyStr(projectUri(classes[k].fqn)) ==>
              classes[k].fqn in SymbolFqns(syms)
  {
  }

  /** Before the loop of step 3 nothing is assigned yet and no symbol was found. */
  lemma AssignStart(classes: seq<ClassRecord>, resolved: map<string, string>, projectPackage: string,
                    projectUri: string -> Option<string>)
    ensures AssignInvariant(classes, 0, resolved, projectPackage, projectUri, resolved, [])
  {
    assert ClassFqns(classes, 0) + MethodFqns(classes, 0) == {};
    assert Assigned(resolved, {}, projectPackage) == resolved;
  }

  /** One turn of the loop of step 3: the class, then its methods. */
  method AssignStep(classes: seq<ClassRecord>, i: int, resolved: map<string, string>, projectPackage: string,
                    projectUri: string -> Option<string>, pk0: map<string, string>, syms0: seq<SymbolInput>)
    returns (pk: map<string, string>, syms: seq<SymbolInput>)
    requires 0 <= i < |classes|
    requires AssignInvariant(classes, i, resolved, projectPackage, projectUri, pk0, syms0)
    ensures AssignInvariant(classes, i + 1, resolved, projectPackage, projectUri, pk, syms)
  {
    var c := classes[i];
    ghost var own := ClassFqns(classes, i) + MethodFqns(classes, i);
    AssignedAdd(resolved, own, c.fqn, projectPackage);
    pk, syms := AssignClassPackage(c.fqn, pk0, syms0, projectPackage, projectUri);
    SymbolsStep(classes, i, resolved, projectPackage, projectUri, pk0, syms0, syms);
    pk := AssignMethodPackages(c.methods, pk, resolved, own + {c.fqn}, projectPackage);
    FqnsStep(classes, i);
  }

  lemma FqnsStep(classes: seq<ClassRecord>, i: int)
    requires 0 <= i < |classes|
    ensures ClassFqns(classes, i) + MethodFqns(classes, i) + {classes[i].fqn}
            + MethodFqnsOf(classes[i].methods, |classes[i].methods|)
         == ClassFqns(classes, i + 1) + MethodFqns(classes, i + 1)
  {
    assert ClassFqns(classes, i + 1) == ClassFqns(classes, i) + {classes[i].fqn};
    MethodFqnsStep(classes, i);
  }

  /** The project symbols after the class step of turn `i`. */
  lemma {:induction false} SymbolsStep(classes: seq<ClassRecord>, i: int, resolved: map<string, string>, projectPackage: string,
                    projectUri: string -> Option<string>, pk0: map<string, string>, syms0: seq<SymbolInput>,
                    syms: seq<SymbolInput>)
    requires 0 <= i < |classes|
    requires AssignInvariant(classes, i, resolved, projectPackage, projectUri, pk0, syms0)
    requires var x := classes[i].fqn;
      syms == syms0 + (if x !in pk0 && TruthyStr(projectUri(x)) then [SymbolInput(x, projectUri(x).value)] else [])
    ensures forall s :: s in syms ==>
              s.fqn in ClassFqns(classes, i + 1) && s.fqn !in resolved && projectUri(s.fqn) == Some(s.uri) && s.uri != ""
    ensures FoundUpTo(classes, i + 1, resolved, MethodFqns(classes, |classes|), projectUri, syms)
  {
    var c := classes[i];
    assert ClassFqns(classes, i + 1) == ClassFqns(classes, i) + {c.fqn};
    forall s | s in syms
      ensures s.fqn in ClassFqns(classes, i + 1) && s.fqn !in resolved && projectUri(s.fqn) == Some(s.uri) && s.uri != ""
    {
      if s !in syms0 {
        assert s == SymbolInput(c.fqn, projectUri(c.fqn).value);
        assert c.fqn !in resolved by { assert pk0.Keys >= resolved.Keys; }
      }
    }
    FoundStep(classes, i, resolved, projectPackage, projectUri, pk0, syms0, syms);
  }

  /** The classes found up to `i` stay found, and class `i` is found when it should be. */
  lemma {:induction false} FoundStep(classes: seq<ClassRecord>, i: int, resolved: map<string, string>, projectPackage: string,
                    projectUri: string -> Option<string>, pk0: map<string, string>, syms0: seq<SymbolInput>,
                    syms: seq<SymbolInput>)
    requires 0 <= i < |classes|
    requires AssignInvariant(classes, i, resolved, projectPackage, projectUri, pk0, syms0)
    requires var x := classes[i].fqn;
      syms == syms0 + (if x !in pk0 && TruthyStr(projectUri(x)) then [SymbolInput(x, projectUri(x).value)] else [])
    ensures FoundUpTo(classes, i + 1, resolved, MethodFqns(classes, |classes|), projectUri, syms)
  {
    var c := classes[i];
    var allMethods := MethodFqns(classes, |classes|);
    SymbolFqnsGrow(syms0, syms);
    if c.fqn !in resolved && c.fqn !in allMethods && TruthyStr(projectUri(c.fqn)) {
      if c.fqn in pk0 {
        ClassOrMethodFqn(classes, i, c.fqn);
      } else {
        assert syms[|syms0|].fqn == c.fqn;
      }
    }
  }

  /** Appending symbols keeps every FQN already listed. */
  lemma SymbolFqnsGrow(syms0: seq<SymbolInput>, syms: seq<SymbolInput>)
    requires |syms0| <= |syms| && syms[..|syms0|] == syms0
    ensures SymbolFqns(syms0) <= SymbolFqns(syms)
  {
    forall x | x in SymbolFqns(syms0) ensures x in SymbolFqns(syms) {
      var s :| s in syms0 && s.fqn == x;
      var k :| 0 <= k < |syms0| && syms0[k] == s;
      assert syms[k] == s;
    }
  }

  /** The class step of `AssignProjectPackages`: an unresolved class gets the package and maybe a symbol. */
  method AssignClassPackage(fqn: string, pk0: map<string, string>, syms0: seq<SymbolInput>, projectPackage: string,
                            projectUri: string -> Option<string>)
    returns (pk: map<string, string>, syms: seq<SymbolInput>)
    ensures pk == if fqn in pk0 then pk0 else pk0[fqn := projectPackage]
    ensures syms == syms0 + (if fqn !in pk0 && TruthyStr(projectUri(fqn)) then [SymbolInput(fqn, projectUri(fqn).value)] else [])
  {
    pk, syms := pk0, syms0;
    if fqn !in pk {
      pk := pk[fqn := projectPackage];
      var uri := projectUri(fqn);
      if TruthyStr(uri) {
        syms := syms + [SymbolInput(fqn, uri.value)];
      }
    }
  }

  function SymbolFqns(syms: seq<SymbolInput>): set<string> {
    set s | s in syms :: s.fqn
  }

  /** What the loop of `AssignProjectPackages` keeps about the classes whose source was found. */
  predicate FoundUpTo(classes: seq<ClassRecord>, i: int, resolved: map<string, string>, allMethods: set<string>,
                      projectUri: string -> Option<string>, syms: seq<SymbolInput>)
    requires 0 <= i <= |classes|
  {
    forall k :: 0 <= k < i && classes[k].fqn !in resolved
                && classes[k].fqn !in allMethods && TruthyStr(projectUri(classes[k].fqn)) ==>
      classes[k].fqn in SymbolFqns(syms)
  }

  lemma ClassOrMethodFqn(classes: seq<ClassRecord>, i: int, x: string)
    requires 0 <= i <= |classes|
    requires x in ClassFqns(classes, i) + MethodFqns(classes, i) && x !in MethodFqns(classes, |classes|)
    ensures exists k :: 0 <= k < i && classes[k].fqn == x
  {
  }

  /** A method record with the packages `extract_project` adds to it. */
  datatype EnrichedMethod = EnrichedMethod(record: MethodRecord, package: Option<string>,
                                           returnTypePackage: Option<string>,
                                           arguments: seq<(string, Option<string>)>, callPackages: seq<Option<string>>)

  /** A class record with the packages `extract_project` adds to it. */
  datatype EnrichedClass = EnrichedClass(record: ClassRecord, package: Option<string>,
                                         inheritancePackages: seq<Option<string>>, fieldPackages: seq<Option<string>>,
                                         methods: seq<EnrichedMethod>)

  function LookupOpt(p: map<string, string>, fqn: Option<string>): Option<string> {
    if fqn.Some? then Lookup(p, fqn.value) else None
  }

  /** `returnType_package` is only written for a non-empty return type; otherwise the model keeps `None`. */
  function EnrichMethod(m: MethodRecord, pk: map<string, string>): EnrichedMethod {
    EnrichedMethod(m, Lookup(pk, m.fqn),
                   if TruthyStr(m.returnType) then Lookup(pk, m.returnType.value) else None,
                   seq(|m.arguments|, i requires 0 <= i < |m.arguments| => (m.arguments[i], Lookup(pk, m.arguments[i]))),
                   seq(|m.calls|, i requires 0 <= i < |m.calls| => Lookup(pk, m.calls[i].toFqn)))
  }

  /** Step 4 of `extract_project`: every reference gets `fqn_to_package.get(...)`. */
  function EnrichClass(c: ClassRecord, pk: map<string, string>): EnrichedClass {
    EnrichedClass(c, Lookup(pk, c.fqn),
                  seq(|c.inheritance|, i requires 0 <= i < |c.inheritance| => Lookup(pk, c.inheritance[i].fqn)),
                  seq(|c.fields|, i requires 0 <= i < |c.fields| => LookupOpt(pk, c.fields[i].fieldType)),
                  seq(|c.methods|, i requires 0 <= i < |c.methods| => EnrichMethod(c.methods[i], pk)))
  }

  function EnrichAll(classes: seq<ClassRecord>, pk: map<string, string>): (r: seq<EnrichedClass>)
    ensures |r| == |classes|
  {
    seq(|classes|, i requires 0 <= i < |classes| => EnrichClass(classes[i], pk))
  }

  /**
   * After enrichment every class and method carries a package: the resolved
   * one if its FQN resolved, the project package otherwise. Any other
   * reference keeps what resolution said, unless it names a class or method
   * of the project itself.
   */
  lemma EnrichedPackages(classes: seq<ClassRecord>, resolved: map<string, string>, pp: string)
    ensures var own := ClassFqns(classes, |classes|) + MethodFqns(classes, |classes|);
      var r := EnrichAll(classes, Assigned(resolved, own, pp));
      && (forall i :: 0 <= i < |classes| ==>
            r[i].package == Some(if classes[i].fqn in resolved then resolved[classes[i].fqn] else pp))
      && (forall i, j :: 0 <= i < |classes| && 0 <= j < |classes[i].methods| ==>
            var f := classes[i].methods[j].fqn;
            r[i].methods[j].package == Some(if f in resolved then resolved[f] else pp))
      && (forall i, j :: 0 <= i < |classes| && 0 <= j < |classes[i].inheritance|
                         && classes[i].inheritance[j].fqn !in own ==>
            r[i].inheritancePackages[j] == Lookup(resolved, classes[i].inheritance[j].fqn))
      && (forall i, j, l :: 0 <= i < |classes| && 0 <= j < |classes[i].methods| && 0 <= l < |classes[i].methods[j].calls|
                            && classes[i].methods[j].calls[l].toFqn !in own ==>
            r[i].methods[j].callPackages[l] == Lookup(resolved, classes[i].methods[j].calls[l].toFqn))
  {
    var own := ClassFqns(classes, |classes|) + MethodFqns(classes, |classes|);
    forall i | 0 <= i < |classes| ensures classes[i].fqn in own {
    }
    forall i, j | 0 <= i < |classes| && 0 <= j < |classes[i].methods| ensures classes[i].methods[j].fqn in own {
    }
  }

  /** Steps 3 and 4 of `extract_project` on the resolved packages. */
  method EnrichProject(classes: seq<ClassRecord>, resolved: map<string, string>, projectPackage: string,
                       projectUri: string -> Option<string>)
    returns (enriched: seq<EnrichedClass>, projectSymbols: seq<SymbolInput>)
    ensures enriched == EnrichAll(classes, Assigned(resolved, ClassFqns(classes, |classes|) + MethodFqns(classes, |classes|),
                                                     projectPackage))
    ensures forall s :: s in projectSymbols ==>
              s.fqn in ClassFqns(classes, |classes|) && s.fqn !in resolved && projectUri(s.fqn) == Some(s.uri)
    ensures forall k :: 0 <= k < |classes| && classes[k].fqn !in resolved
                        && classes[k].fqn !in MethodFqns(classes, |classes|) && TruthyStr(projectUri(classes[k].fqn)) ==>
              classes[k].fqn in SymbolFqns(projectSymbols)
  {
    var pk;
    pk, projectSymbols := AssignProjectPackages(classes, resolved, projectPackage, projectUri);
    enriched := EnrichAll(classes, pk);
  }

  // ---------------------------------------------------------------------
  // The extractor's database

  /** The SQLite database an `ASMExtractor` writes: four tables. */
  class Extractor {
    var symbols: map<string, Symbol>
    var hashes: map<string, string>
    var nodes: map<string, AsmNode>
    var edges: seq<AsmEdge>

    /** A fresh database: the tables exist and are empty. */
    constructor()
      ensures symbols == map[] && hashes == map[] && nodes == map[] && edges == []
    {
      symbols, hashes, nodes, edges := map[], map[], map[], [];
    }

    /** `_store_symbols`: drop the package's rows, insert the symbols one by one, record the hash. */
    method StoreSymbols(syms: seq<SymbolInput>, pkg: string, contentHash: string)
      modifies this
      ensures symbols == StoredSymbols(old(symbols), syms, pkg)
      ensures hashes == old(hashes)[pkg := contentHash]
      ensures nodes == old(nodes) && edges == old(edges)
    {
      symbols := DropPackage(symbols, pkg);
      var i := 0;
      while i < |syms|
        invariant 0 <= i <= |syms|
        invariant symbols == PutAll(DropPackage(old(symbols), pkg), syms[..i], pkg)
        invariant hashes == old(hashes) && nodes == old(nodes) && edges == old(edges)
      {
        assert syms[..i + 1][..i] == syms[..i];
        symbols := symbols[syms[i].fqn := Symbol(syms[i].uri, pkg)];
        i := i + 1;
      }
      assert syms[..i] == syms;
      hashes := hashes[pkg := contentHash];
    }

    /**
     * `build_symbol_index` over the package directories of an existing
     * repos directory, then the local URI repair when a project root and
     * local packages are given.
     */
    method BuildSymbolIndex(reposExists: bool, dirs: seq<PackageDir>, indexer: PackageDir -> seq<SymbolInput>,
                            utf8: string -> seq<byte>, sha: seq<byte> -> string,
                            projectRoot: Option<seq<string>>, localPackages: seq<string>,
                            present: FsPath -> bool, asUri: FsPath -> string)
      returns (r: Result<()>)
      modifies this
      ensures !reposExists ==> r.Err? && symbols == old(symbols) && hashes == old(hashes)
      ensures reposExists ==> r.Ok?
      ensures reposExists ==>
        var built := BuildFold(IndexTables(old(symbols), old(hashes)), dirs, indexer, utf8, sha);
        hashes == built.hashes
        && symbols == (if projectRoot.Some? && localPackages != []
                       then LocalFix(built.symbols, projectRoot.value, localPackages, present, asUri)
                       else built.symbols)
      ensures nodes == old(nodes) && edges == old(edges)
    {
      if !reposExists {
        return Err("FileNotFoundError: axelor-repos not found");
      }
      var i := 0;
      while i < |dirs|
        invariant 0 <= i <= |dirs|
        invariant IndexTables(symbols, hashes) == BuildFold(IndexTables(old(symbols), old(hashes)), dirs[..i], indexer, utf8, sha)
        invariant nodes == old(nodes) && edges == old(edges)
      {
        assert dirs[..i + 1][..i] == dirs[..i];
        var dir := dirs[i];
        if NeedsReindex(hashes, dir, utf8, sha) {
          var syms := indexer(dir);
          if syms != [] {
            StoreSymbols(syms, dir.name, PackageHash(dir.classesExists, dir.classFiles, utf8, sha));
          }
        }
        i := i + 1;
      }
      assert dirs[..i] == dirs;
      if projectRoot.Some? && localPackages != [] {
        FixLocalPackageUris(projectRoot.value, localPackages, present, asUri);
      }
      return Ok(());
    }

    /** `_fix_local_package_uris`. */
    method FixLocalPackageUris(projectRoot: seq<string>, localPackages: seq<string>,
                               present: FsPath -> bool, asUri: FsPath -> string)
      modifies this
      ensures symbols == LocalFix(old(symbols), projectRoot, localPackages, present, asUri)
      ensures hashes == old(hashes) && nodes == old(nodes) && edges == old(edges)
    {
      if !present(FsPath(projectRoot + ["modules"], "")) {
        return;
      }
      var i := 0;
      while i < |localPackages|
        invariant 0 <= i <= |localPackages|
        invariant symbols == FixPackages(old(symbols), projectRoot, localPackages[..i], present, asUri)
        invariant hashes == old(hashes) && nodes == old(nodes) && edges == old(edges)
      {
        assert localPackages[..i + 1][..i] == localPackages[..i];
        var pkg := localPackages[i];
        match ModuleNameForFix(pkg) {
          case None =>
          case Some(name) =>
            var modulePath := projectRoot + ["modules", name];
            if present(FsPath(modulePath, "")) {
              FixPackageRows(pkg, modulePath, present, asUri);
            }
        }
        i := i + 1;
      }
      assert localPackages[..i] == localPackages;
    }

    /** The inner loop of `_fix_local_package_uris`: one UPDATE per row whose URI changes. */
    method FixPackageRows(pkg: string, modulePath: seq<string>, present: FsPath -> bool, asUri: FsPath -> string)
      modifies this`symbols
      ensures symbols == FixUris(old(symbols), pkg, modulePath, present, asUri)
      ensures hashes == old(hashes) && nodes == old(nodes) && edges == old(edges)
    {
      var todo := set fqn | fqn in symbols && symbols[fqn].package == pkg;
      ghost var all := todo;
      ghost var done: set<string> := {};
      while todo != {}
        invariant todo !! done && todo + done == all
        invariant symbols == FixUrisIn(old(symbols), pkg, done, modulePath, present, asUri)
        decreases |todo|
      {
        var fqn :| fqn in todo;
        FixUrisInStep(old(symbols), pkg, done, fqn, modulePath, present, asUri);
        var row := symbols[fqn];
        assert row == old(symbols)[fqn];
        var newUri := LocalUri(fqn, modulePath, present, asUri);
        if newUri.Some? && newUri.value != "" && newUri.value != row.uri {
          symbols := symbols[fqn := Symbol(newUri.value, pkg)];
        } else {
          MapSetSame(symbols, fqn);
        }
        SetMove(todo, done, all, fqn);
        todo, done := todo - {fqn}, done + {fqn};
      }
      FixUrisInAll(old(symbols), pkg, done, modulePath, present, asUri);
    }

    /**
     * `_store_extraction_results`: one package lookup for every target FQN,
     * the batches, then `INSERT OR IGNORE` of nodes and of edges.
     */
    method StoreExtractionResults(classes: seq<ClassRecord>)
      modifies this
      ensures var p := StorePackages(old(symbols), classes);
        nodes == IgnoreNodes(old(nodes), NodeBatch(classes, p))
        && edges == old(edges) + IgnoreEdges(EdgeBatch(classes, p))
      ensures symbols == old(symbols) && hashes == old(hashes)
    {
      var p := StorePackages(symbols, classes);
      var nodesBatch, edgesBatch := CollectBatches(classes, p);
      nodes := IgnoreNodes(nodes, nodesBatch);
      edges := edges + IgnoreEdges(edgesBatch);
    }

    /**
     * `extract_project` once the analysis answered: `None` stands for an
     * answer without `success`, which raises. The class and method FQNs
     * that did not resolve get the project package, project classes whose
     * source was found are stored as symbols, and the records are enriched.
     */
    method ExtractProject(analysis: Option<seq<ClassRecord>>, projectPackage: string, allowed: seq<string>,
                          projectUri: string -> Option<string>)
      returns (r: Result<seq<EnrichedClass>>)
      modifies this
      ensures analysis.None? ==> r.Err? && symbols == old(symbols)
      ensures analysis.Some? ==>
        var classes := analysis.value;
        var own := ClassFqns(classes, |classes|) + MethodFqns(classes, |classes|);
        r == Ok(EnrichAll(classes, Assigned(ResolvePackagesBatch(old(symbols), AllFqns(classes), allowed), own, projectPackage)))
      ensures analysis.Some? ==>
        ProjectTable(old(symbols), symbols, analysis.value,
                     ResolvePackagesBatch(old(symbols), AllFqns(analysis.value), allowed), projectPackage, projectUri)
      ensures hashes == old(hashes) && nodes == old(nodes) && edges == old(edges)
    {
      if analysis.None? {
        return Err("Analysis failed");
      }
      var classes := analysis.value;
      var resolved := ResolvePackagesBatch(symbols, AllFqns(classes), allowed);
      var enriched, projectSymbols := EnrichProject(classes, resolved, projectPackage, projectUri);
      StoreProjectSymbols(symbols, classes, allowed, projectPackage, projectUri, projectSymbols);
      symbols := PutAll(symbols, projectSymbols, projectPackage);
      r := Ok(enriched);
    }
  }

  /**
   * The symbol table `r` after `extract_project` stored the project symbols
   * into `m`: new rows are project classes; rows that resolved or are not
   * project classes stay as they were; every new or changed row carries the
   * project package; and every project class that did not resolve and
   * whose source was found is stored with that source's uri.
   */
  predicate ProjectTable(m: map<string, Symbol>, r: map<string, Symbol>, classes: seq<ClassRecord>,
                         resolved: map<string, string>, pp: string, projectUri: string -> Option<string>)
  {
    && (forall fqn :: fqn in r ==> fqn in m || fqn in ClassFqns(classes, |classes|))
    && (forall fqn :: fqn in m && (fqn in resolved || fqn !in ClassFqns(classes, |classes|)) ==> fqn in r && r[fqn] == m[fqn])
    && (forall fqn :: fqn in r && (fqn !in m || r[fqn] != m[fqn]) ==> r[fqn].package == pp)
    && (forall k :: 0 <= k < |classes| && classes[k].fqn !in resolved
                    && classes[k].fqn !in MethodFqns(classes, |classes|) && TruthyStr(projectUri(classes[k].fqn)) ==>
          classes[k].fqn in r && r[classes[k].fqn] == Symbol(projectUri(classes[k].fqn).value, pp))
  }

  /** Storing the project symbols the analysis found gives the table `ProjectTable` describes. */
  lemma StoreProjectSymbols(m: map<string, Symbol>, classes: seq<ClassRecord>, allowed: seq<string>, pp: string,
                            projectUri: string -> Option<string>, syms: seq<SymbolInput>)
    requires var resolved := ResolvePackagesBatch(m, AllFqns(classes), allowed);
      forall s :: s in syms ==> s.fqn in ClassFqns(classes, |classes|) && s.fqn !in resolved && projectUri(s.fqn) == Some(s.uri)
    requires var resolved := ResolvePackagesBatch(m, AllFqns(classes), allowed);
      forall k :: 0 <= k < |classes| && classes[k].fqn !in resolved
                  && classes[k].fqn !in MethodFqns(classes, |classes|) && TruthyStr(projectUri(classes[k].fqn)) ==>
        classes[k].fqn in SymbolFqns(syms)
    ensures ProjectTable(m, PutAll(m, syms, pp), classes, ResolvePackagesBatch(m, AllFqns(classes), allowed), pp, projectUri)
  {
    var resolved := ResolvePackagesBatch(m, AllFqns(classes), allowed);
    ProjectSymbolsStored(m, syms, pp, ClassFqns(classes, |classes|), resolved);
    ProjectClassesStored(m, syms, pp, classes, resolved, projectUri);
  }

  /**
   * Storing the project symbols (`_store_project_symbols`) only touches
   * rows of project classes that did not resolve, and gives them the
   * project package.
   */
  lemma ProjectSymbolsStored(m: map<string, Symbol>, syms: seq<SymbolInput>, pp: string,
                             classFqns: set<string>, resolved: map<string, string>)
    requires forall s :: s in syms ==> s.fqn in classFqns && s.fqn !in resolved
    ensures var r := PutAll(m, syms, pp);
      && (forall fqn :: fqn in r ==> fqn in m || fqn in classFqns)
      && (forall fqn :: fqn in m && (fqn in resolved || fqn !in classFqns) ==> fqn in r && r[fqn] == m[fqn])
      && (forall fqn :: fqn in r && (fqn !in m || r[fqn] != m[fqn]) ==> r[fqn].package == pp)
  {
    PutAllSpec(m, syms, pp);
    var r := PutAll(m, syms, pp);
    forall fqn | fqn in r && (fqn !in m || r[fqn] != m[fqn]) ensures r[fqn].package == pp {
      if forall i :: 0 <= i < |syms| ==> syms[i].fqn != fqn {
      }
    }
    forall fqn | fqn in m && (fqn in resolved || fqn !in classFqns) ensures fqn in r && r[fqn] == m[fqn] {
      forall i | 0 <= i < |syms| ensures syms[i].fqn != fqn {
        assert syms[i] in syms;
      }
    }
  }

  /**
   * Storing the project symbols is complete: every project class that did
   * not resolve and whose source was found is stored with that source's
   * uri under the project package.
   */
  lemma ProjectClassesStored(m: map<string, Symbol>, syms: seq<SymbolInput>, pp: string,
                             classes: seq<ClassRecord>, resolved: map<string, string>, projectUri: string -> Option<string>)
    requires forall s :: s in syms ==> projectUri(s.fqn) == Some(s.uri)
    requires forall k :: 0 <= k < |classes| && classes[k].fqn !in resolved
                         && classes[k].fqn !in MethodFqns(classes, |classes|) && TruthyStr(projectUri(classes[k].fqn)) ==>
               classes[k].fqn in SymbolFqns(syms)
    ensures forall k :: 0 <= k < |classes| && classes[k].fqn !in resolved
                        && classes[k].fqn !in MethodFqns(classes, |classes|) && TruthyStr(projectUri(classes[k].fqn)) ==>
              classes[k].fqn in PutAll(m, syms, pp)
              && PutAll(m, syms, pp)[classes[k].fqn] == Symbol(projectUri(classes[k].fqn).value, pp)
  {
    forall k | 0 <= k < |classes| && classes[k].fqn !in resolved
               && classes[k].fqn !in MethodFqns(classes, |classes|) && TruthyStr(projectUri(classes[k].fqn))
      ensures classes[k].fqn in PutAll(m, syms, pp)
              && PutAll(m, syms, pp)[classes[k].fqn] == Symbol(projectUri(classes[k].fqn).value, pp)
    {
      var f := classes[k].fqn;
      var s :| s in syms && s.fqn == f;
      PutAllUniform(m, syms, pp, f, projectUri(f).value);
    }
  }

  /** When every symbol naming `f` carries the same uri, `f` ends up with that uri, whichever write came last. */
  lemma {:induction false} PutAllUniform(m: map<string, Symbol>, syms: seq<SymbolInput>, pkg: string, f: string, u: string)
    requires exists i :: 0 <= i < |syms| && syms[i].fqn == f
    requires forall i :: 0 <= i < |syms| && syms[i].fqn == f ==> syms[i].uri == u
    ensures f in PutAll(m, syms, pkg) && PutAll(m, syms, pkg)[f] == Symbol(u, pkg)
    decreases |syms|
  {
    var init := syms[..|syms| - 1];
    if syms[|syms| - 1].fqn != f {
      var i :| 0 <= i < |syms| && syms[i].fqn == f;
      assert init[i] == syms[i];
      forall j | 0 <= j < |init| && init[j].fqn == f ensures init[j].uri == u {
        assert init[j] == syms[j];
      }
      PutAllUniform(m, init, pkg, f, u);
    }
  }

  /** `_fix_local_package_uris` as a whole: nothing happens without a `modules` directory. */
  function LocalFix(m: map<string, Symbol>, projectRoot: seq<string>, pkgs: seq<string>,
                    present: FsPath -> bool, asUri: FsPath -> string): map<string, Symbol>
  {
    if !present(FsPath(projectRoot + ["modules"], "")) then m else FixPackages(m, projectRoot, pkgs, present, asUri)
  }
}
