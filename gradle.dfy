/**
 * The Gradle dependency manager's pure parts: reading the dependency lines
 * the init script prints, naming a package and deciding whether it was
 * extracted, and locating a sources jar next to a jar. Running Gradle,
 * unzipping and the file system are parameters.
 */
module Gradle {
  import opened Common
  import opened StringUtil

  // ---------------------------------------------------------------------
  // Reading the script's output

  /** The characters at which Python's `splitlines` breaks a line. */
  predicate LineBreak(c: char) {
    c == '\n' || c == '\r' || c == '\U{0B}' || c == '\U{0C}' || ('\U{1C}' <= c <= '\U{1E}')
    || c == '\U{85}' || c == '\U{2028}' || c == '\U{2029}'
  }

  /**
   * The output cut at every line break. Unlike `splitlines` this yields an
   * empty piece between "\r" and "\n" and after a final break; an empty
   * line is never a dependency line, so the parse is the same.
   */
  function Lines(s: string): seq<string>
    decreases |s|
  {
    if |s| == 0 then [""]
    else
      var rest := Lines(s[1..]);
      if LineBreak(s[0]) then [""] + rest else [[s[0]] + rest[0]] + rest[1..]
  }

  const Marker: string := "AXELOR_DEP|"

  /** One dependency as the script reports it; a sources path of "NONE" is absent. */
  datatype JarInfo = JarInfo(group: string, artifact: string, version: string, jarPath: string, sourcesPath: Option<string>)

  /** The dependency a line reports: a stripped line starting with the marker and holding exactly six '|' fields. */
  function Accepted(line: string): Option<JarInfo> {
    Fields(PyStrip(line))
  }

  /** What a stripped line reports. */
  function Fields(l: string): Option<JarInfo> {
    if !StartsWith(l, Marker) then None
    else
      var parts := Split(l, '|');
      if |parts| != 6 then None
      else Some(JarInfo(parts[1], parts[2], parts[3], parts[4], if parts[5] != "NONE" then Some(parts[5]) else None))
  }

  /** The duplicate key of a dependency. */
  function Key(j: JarInfo): string {
    j.group + ":" + j.artifact + ":" + j.version
  }

  /** The line a dependency is printed as, once stripped. */
  function Printed(j: JarInfo): string {
    Join(["AXELOR_DEP", j.group, j.artifact, j.version, j.jarPath, if j.sourcesPath.Some? then j.sourcesPath.value else "NONE"], "|")
  }

  /** An accepted line is exactly the printed form of what it reports, and an empty line is never accepted. */
  lemma {:induction false} FieldsRoundTrip(l: string)
    ensures Fields(l).Some? ==> Printed(Fields(l).value) == l
    ensures Fields("").None?
  {
    if Fields(l).Some? {
      var parts := Split(l, '|');
      JoinSplit(l, '|');
      MarkerHead(l);
      PrintedParts(parts);
    }
  }

  /** A line starting with the marker splits first into "AXELOR_DEP". */
  lemma MarkerHead(l: string)
    requires StartsWith(l, Marker)
    ensures Split(l, '|')[0] == "AXELOR_DEP"
  {
    assert l[..11] == Marker;
    assert l[..10] == "AXELOR_DEP";
    assert l[10] == '|';
    SplitHead(l, 10);
  }

  /** Six fields headed by "AXELOR_DEP" print back to their join. */
  lemma PrintedParts(parts: seq<string>)
    requires |parts| == 6 && parts[0] == "AXELOR_DEP"
    ensures Printed(JarInfo(parts[1], parts[2], parts[3], parts[4], if parts[5] != "NONE" then Some(parts[5]) else None))
            == Join(parts, "|")
  {
    var j := JarInfo(parts[1], parts[2], parts[3], parts[4], if parts[5] != "NONE" then Some(parts[5]) else None);
    assert ["AXELOR_DEP", j.group, j.artifact, j.version, j.jarPath,
            if j.sourcesPath.Some? then j.sourcesPath.value else "NONE"] == parts;
  }

  /** The first piece of a split ends at the first separator. */
  lemma SplitHead(s: string, k: int)
    requires 0 <= k < |s| && s[k] == '|' && '|' !in s[..k]
    ensures Split(s, '|')[0] == s[..k]
  {
    assert IndexOfChar(s, '|') == k;
  }

  /** The reading state: the dependencies kept and the keys seen. */
  datatype Reading = Reading(jars: seq<JarInfo>, seen: set<string>)

  /** One line's effect: a dependency whose key was not seen is kept. */
  function ReadStep(r: Reading, a: Option<JarInfo>): Reading {
    match a
    case None => r
    case Some(j) => if Key(j) in r.seen then r else Reading(r.jars + [j], r.seen + {Key(j)})
  }

  /** Reading what the lines report, in order. */
  function Read(reports: seq<Option<JarInfo>>): Reading
    decreases |reports|
  {
    if |reports| == 0 then Reading([], {}) else ReadStep(Read(reports[..|reports| - 1]), reports[|reports| - 1])
  }

  function Reports(lines: seq<string>): (r: seq<Option<JarInfo>>)
    ensures |r| == |lines|
  {
    seq(|lines|, i requires 0 <= i < |lines| => Accepted(lines[i]))
  }

  /** `_parse_gradle_output`: the dependencies of the lines, later duplicates of a key dropped. */
  method ParseGradleOutput(output: string) returns (jars: seq<JarInfo>)
    ensures jars == Read(Reports(Lines(output))).jars
  {
    var lines := Lines(output);
    ghost var reports := Reports(lines);
    jars := [];
    var seen: set<string> := {};
    for i := 0 to |lines|
      invariant Reading(jars, seen) == Read(reports[..i])
    {
      assert reports[..i + 1][..i] == reports[..i];
      assert reports[i] == Fields(PyStrip(lines[i]));
      var line := PyStrip(lines[i]);
      if !StartsWith(line, Marker) {
        continue;
      }
      var parts := Split(line, '|');
      if |parts| != 6 {
        continue;
      }
      var key := parts[1] + ":" + parts[2] + ":" + parts[3];
      if key in seen {
        continue;
      }
      seen := seen + {key};
      jars := jars + [JarInfo(parts[1], parts[2], parts[3], parts[4], if parts[5] != "NONE" then Some(parts[5]) else None)];
    }
    assert reports[..|lines|] == reports;
  }

  /** The keys reported. */
  function ReportedKeys(reports: seq<Option<JarInfo>>): set<string> {
    set i | 0 <= i < |reports| && reports[i].Some? :: Key(reports[i].value)
  }

  /** Report `i` is a dependency and no earlier report has its key. */
  predicate FirstOfKey(reports: seq<Option<JarInfo>>, i: int)
    requires 0 <= i < |reports|
  {
    reports[i].Some?
    && forall i' :: 0 <= i' < i && reports[i'].Some? ==> Key(reports[i'].value) != Key(reports[i].value)
  }

  /** The keys of the dependencies kept. */
  function JarKeys(jars: seq<JarInfo>): set<string> {
    set a | 0 <= a < |jars| :: Key(jars[a])
  }

  /** Every key reported is seen, and no other. */
  lemma {:induction false} ReadSeen(reports: seq<Option<JarInfo>>)
    ensures Read(reports).seen == ReportedKeys(reports)
    decreases |reports|
  {
    if |reports| > 0 {
      ReadSeen(reports[..|reports| - 1]);
      ReportedKeysSnoc(reports);
    }
  }

  /** One dependency is kept per key seen, so no more than one per report. */
  lemma {:induction false} ReadDistinct(reports: seq<Option<JarInfo>>)
    ensures var r := Read(reports);
      r.seen == JarKeys(r.jars)
      && (forall a, b :: 0 <= a < b < |r.jars| ==> Key(r.jars[a]) != Key(r.jars[b]))
      && |r.jars| == |r.seen| <= |reports|
    decreases |reports|
  {
    if |reports| > 0 {
      var init := reports[..|reports| - 1];
      var last := reports[|reports| - 1];
      ReadDistinct(init);
      var r0 := Read(init);
      var r := Read(reports);
      if last.Some? && Key(last.value) !in r0.seen {
        var j := last.value;
        assert r.jars == r0.jars + [j];
        assert |r0.seen + {Key(j)}| == |r0.seen| + 1;
        JarKeysSnoc(r0.jars, j);
        forall a | 0 <= a < |r0.jars| ensures Key(r.jars[a]) != Key(j) {
          assert r.jars[a] == r0.jars[a];
          assert Key(r0.jars[a]) in JarKeys(r0.jars);
        }
      }
    }
  }

  lemma JarKeysSnoc(jars: seq<JarInfo>, j: JarInfo)
    ensures JarKeys(jars + [j]) == JarKeys(jars) + {Key(j)}
  {
    var js := jars + [j];
    forall k | k in JarKeys(js) ensures k in JarKeys(jars) + {Key(j)} {
      var a :| 0 <= a < |js| && k == Key(js[a]);
      if a < |jars| {
        assert js[a] == jars[a];
      }
    }
    forall k | k in JarKeys(jars) ensures k in JarKeys(js) {
      var a :| 0 <= a < |jars| && k == Key(jars[a]);
      assert js[a] == jars[a];
    }
    assert js[|jars|] == j;
  }

  /** Some report is the first of its key and reports `j`. */
  predicate KeptFirst(reports: seq<Option<JarInfo>>, j: JarInfo) {
    exists i :: 0 <= i < |reports| && FirstOfKey(reports, i) && reports[i] == Some(j)
  }

  /** Each dependency kept is the first report of its key. */
  lemma {:induction false} ReadFirst(reports: seq<Option<JarInfo>>)
    ensures forall a :: 0 <= a < |Read(reports).jars| ==> KeptFirst(reports, Read(reports).jars[a])
    decreases |reports|
  {
    if |reports| > 0 {
      var init := reports[..|reports| - 1];
      var last := reports[|reports| - 1];
      ReadFirst(init);
      ReadSeen(init);
      var r0 := Read(init);
      var r := Read(reports);
      forall a | 0 <= a < |r0.jars|
        ensures KeptFirst(reports, r0.jars[a])
      {
        assert KeptFirst(init, r0.jars[a]);
        var i :| 0 <= i < |init| && FirstOfKey(init, i) && init[i] == Some(r0.jars[a]);
        assert reports[i] == init[i];
        FirstOfKeyExtends(reports, i);
      }
      if last.Some? && Key(last.value) !in r0.seen {
        var j := last.value;
        assert r.jars == r0.jars + [j];
        assert FirstOfKey(reports, |reports| - 1) by {
          forall i' | 0 <= i' < |reports| - 1 && reports[i'].Some?
            ensures Key(reports[i'].value) != Key(j)
          {
            assert init[i'] == reports[i'];
          }
        }
        forall a | 0 <= a < |r.jars|
          ensures KeptFirst(reports, r.jars[a])
        {
          if a < |r0.jars| {
            assert r.jars[a] == r0.jars[a];
          } else {
            assert reports[|reports| - 1] == Some(r.jars[a]);
          }
        }
      }
    }
  }

  /** Conversely, the first report of each key is kept. */
  lemma {:induction false} ReadKeepsFirst(reports: seq<Option<JarInfo>>, i: int)
    requires 0 <= i < |reports| && FirstOfKey(reports, i)
    ensures reports[i].value in Read(reports).jars
    decreases |reports|
  {
    var init := reports[..|reports| - 1];
    var r0 := Read(init);
    if i < |reports| - 1 {
      assert FirstOfKey(init, i) by {
        assert init[i] == reports[i];
        forall i' | 0 <= i' < i && init[i'].Some? ensures Key(init[i'].value) != Key(init[i].value) {
          assert init[i'] == reports[i'];
        }
      }
      ReadKeepsFirst(init, i);
      assert init[i] == reports[i];
    } else {
      ReadSeen(init);
      assert Key(reports[i].value) !in r0.seen by {
        forall i' | 0 <= i' < |init| && init[i'].Some? ensures Key(init[i'].value) != Key(reports[i].value) {
          assert init[i'] == reports[i'];
        }
      }
      assert Read(reports).jars == r0.jars + [reports[i].value];
    }
  }

  lemma FirstOfKeyExtends(reports: seq<Option<JarInfo>>, i: int)
    requires 0 <= i < |reports| - 1 && FirstOfKey(reports[..|reports| - 1], i)
    ensures FirstOfKey(reports, i)
  {
    var init := reports[..|reports| - 1];
    assert init[i] == reports[i];
    forall i' | 0 <= i' < i ensures reports[i'] == init[i'] {
    }
  }

  lemma ReportedKeysSnoc(reports: seq<Option<JarInfo>>)
    requires |reports| > 0
    ensures var init := reports[..|reports| - 1]; var a := reports[|reports| - 1];
      ReportedKeys(reports) == ReportedKeys(init) + (if a.Some? then {Key(a.value)} else {})
  {
    var init := reports[..|reports| - 1];
    forall k | k in ReportedKeys(reports)
      ensures k in ReportedKeys(init) || (reports[|reports| - 1].Some? && k == Key(reports[|reports| - 1].value))
    {
      var i :| 0 <= i < |reports| && reports[i].Some? && k == Key(reports[i].value);
      if i < |init| {
        assert init[i] == reports[i];
      }
    }
    forall k | k in ReportedKeys(init) ensures k in ReportedKeys(reports) {
      var i :| 0 <= i < |init| && init[i].Some? && k == Key(init[i].value);
      assert reports[i] == init[i];
    }
  }

  // ---------------------------------------------------------------------
  // Packages

  /** A processed package: its directory name and the directories it has. */
  datatype Package = Package(name: string, group: string, artifact: string, version: string, jar: string,
                             sources: Option<string>, classes: Option<string>)

  /** Where the packages are unpacked, and what the file system and the unzipping report. */
  datatype Unpacking = Unpacking(alreadyUnpacked: bool, sourcesJarExists: bool, sourcesUnzipped: bool, classesUnzipped: bool)

  function PackageName(j: JarInfo): string {
    j.artifact + "-" + j.version
  }

  /**
   * `_process_axelor_package`: a package both of whose directories exist is
   * returned as it is; otherwise the sources (when a sources jar is named
   * and exists) and the classes are unzipped, and the package is dropped
   * when neither was.
   */
  function ProcessPackage(j: JarInfo, reposDir: string, u: Unpacking): Option<Package> {
    var name := PackageName(j);
    var sourcesDir := reposDir + "/" + name + "/sources";
    var classesDir := reposDir + "/" + name + "/classes";
    if u.alreadyUnpacked then Some(Package(name, j.group, j.artifact, j.version, j.jarPath, Some(sourcesDir), Some(classesDir)))
    else
      var sourcesDone := TruthyStr(j.sourcesPath) && u.sourcesJarExists && u.sourcesUnzipped;
      if !sourcesDone && !u.classesUnzipped then None
      else Some(Package(name, j.group, j.artifact, j.version, j.jarPath,
                        if sourcesDone then Some(sourcesDir) else None, if u.classesUnzipped then Some(classesDir) else None))
  }

  /**
   * A package is dropped exactly when it was not unpacked before and
   * neither part could be unzipped; a kept package is named
   * "artifact-version" and its directories sit under that name.
   */
  lemma ProcessPackageRule(j: JarInfo, reposDir: string, u: Unpacking)
    ensures ProcessPackage(j, reposDir, u).None? <==>
              !u.alreadyUnpacked && !u.classesUnzipped && !(TruthyStr(j.sourcesPath) && u.sourcesJarExists && u.sourcesUnzipped)
    ensures ProcessPackage(j, reposDir, u).Some? ==>
              var p := ProcessPackage(j, reposDir, u).value;
              p.name == j.artifact + "-" + j.version
              && (p.sources.Some? || p.classes.Some?)
              && (p.sources.Some? ==> p.sources.value == reposDir + "/" + p.name + "/sources")
              && (p.classes.Some? ==> p.classes.value == reposDir + "/" + p.name + "/classes")
              && (j.sourcesPath.None? && !u.alreadyUnpacked ==> p.sources.None?)
  {
  }

  // ---------------------------------------------------------------------
  // Sources jars

  /** Python's `s.replace(pattern, with)`: every occurrence, scanning left to right. */
  function ReplaceAll(s: string, pattern: string, with: string): string
    requires |pattern| > 0
    decreases |s|
  {
    if |s| == 0 then ""
    else if ContainsAt(s, pattern, 0) then with + ReplaceAll(s[|pattern|..], pattern, with)
    else [s[0]] + ReplaceAll(s[1..], pattern, with)
  }

  function SourcesName(jarName: string): string {
    ReplaceAll(jarName, ".jar", "-sources.jar")
  }

  /** A jar named "stem.jar", with no other ".jar" in the stem, has the sources jar "stem-sources.jar". */
  lemma {:induction false} SourcesNameOfJar(stem: string)
    requires !Contains(stem, ".jar")
    ensures SourcesName(stem + ".jar") == stem + "-sources.jar"
    decreases |stem|
  {
    var s := stem + ".jar";
    if |stem| == 0 {
      assert ContainsAt(s, ".jar", 0);
      assert s[4..] == "";
      assert ReplaceAll(s[4..], ".jar", "-sources.jar") == "";
    } else {
      assert !ContainsAt(s, ".jar", 0) by {
        if |stem| >= 4 {
          assert !ContainsAt(stem, ".jar", 0);
          assert s[..4] == stem[..4];
        } else {
          assert s[|stem|] == '.';
          assert ".jar"[|stem|] != '.';
        }
      }
      assert s[1..] == stem[1..] + ".jar";
      assert !Contains(stem[1..], ".jar") by {
        var k := IndexOf(stem[1..], ".jar");
        if k >= 0 {
          ContainsAtShift(stem, ".jar", k);
        }
      }
      SourcesNameOfJar(stem[1..]);
    }
  }

  /** The parent directory of a '/'-separated path, "." for a bare name. */
  function Parent(path: string): string {
    var k := LastIndexOfChar(path, '/');
    if k == -1 then "." else path[..k]
  }

  /**
   * `_find_sources_jar`: the sources jar beside the jar, else the first
   * sibling hash directory (in listing order) that holds it.
   */
  function FindSourcesJar(jarPath: string, fileExists: string -> bool, isDir: string -> bool,
                          listing: string -> seq<string>): Option<string> {
    var name := SourcesName(LastPiece(jarPath, '/'));
    var beside := Parent(jarPath) + "/" + name;
    if fileExists(beside) then Some(beside)
    else
      var versionDir := Parent(Parent(jarPath));
      if fileExists(versionDir) && isDir(versionDir) then FirstHolding(listing(versionDir), name, fileExists, isDir)
      else None
  }

  /** The first directory of `dirs` holding a file `name`. */
  function FirstHolding(dirs: seq<string>, name: string, fileExists: string -> bool, isDir: string -> bool): Option<string>
    decreases |dirs|
  {
    if |dirs| == 0 then None
    else if isDir(dirs[0]) && fileExists(dirs[0] + "/" + name) then Some(dirs[0] + "/" + name)
    else FirstHolding(dirs[1..], name, fileExists, isDir)
  }

  /**
   * A found sources jar exists and carries the sources name of the jar; the
   * one beside the jar wins, and otherwise it lies in the first hash directory holding it.
   */
  lemma {:induction false} FirstHoldingSpec(dirs: seq<string>, name: string, fileExists: string -> bool, isDir: string -> bool)
    ensures var r := FirstHolding(dirs, name, fileExists, isDir);
      (r.None? <==> forall i :: 0 <= i < |dirs| ==> !(isDir(dirs[i]) && fileExists(dirs[i] + "/" + name)))
      && (r.Some? ==> exists i :: 0 <= i < |dirs| && r.value == dirs[i] + "/" + name && isDir(dirs[i]) && fileExists(r.value)
                                  && forall i' :: 0 <= i' < i ==> !(isDir(dirs[i']) && fileExists(dirs[i'] + "/" + name)))
    decreases |dirs|
  {
    if |dirs| > 0 && !(isDir(dirs[0]) && fileExists(dirs[0] + "/" + name)) {
      var rest := dirs[1..];
      FirstHoldingSpec(rest, name, fileExists, isDir);
      var r := FirstHolding(rest, name, fileExists, isDir);
      if r.Some? {
        var i :| 0 <= i < |rest| && r.value == rest[i] + "/" + name && isDir(rest[i]) && fileExists(r.value)
                 && forall i' :: 0 <= i' < i ==> !(isDir(rest[i']) && fileExists(rest[i'] + "/" + name));
        assert dirs[i + 1] == rest[i];
        forall i' | 0 <= i' < i + 1 ensures !(isDir(dirs[i']) && fileExists(dirs[i'] + "/" + name)) {
          if i' > 0 {
            assert dirs[i'] == rest[i' - 1];
          }
        }
      } else {
        forall i | 0 <= i < |dirs| ensures !(isDir(dirs[i]) && fileExists(dirs[i] + "/" + name)) {
          if i > 0 {
            assert dirs[i] == rest[i - 1];
          }
        }
      }
    }
  }

  /** A path built as `dir/name` ends with "/name". */
  lemma EndsInName(dir: string, name: string)
    ensures EndsWith(dir + "/" + name, "/" + name)
  {
    var p := dir + "/" + name;
    assert p[|p| - |"/" + name|..] == "/" + name;
  }

  lemma {:induction false} FindSourcesJarSpec(jarPath: string, fileExists: string -> bool, isDir: string -> bool, listing: string -> seq<string>)
    ensures var name := SourcesName(LastPiece(jarPath, '/'));
      var r := FindSourcesJar(jarPath, fileExists, isDir, listing);
      (fileExists(Parent(jarPath) + "/" + name) ==> r == Some(Parent(jarPath) + "/" + name))
      && (r.Some? ==> fileExists(r.value) && EndsWith(r.value, "/" + name))
  {
    var name := SourcesName(LastPiece(jarPath, '/'));
    var beside := Parent(jarPath) + "/" + name;
    if fileExists(beside) {
      EndsInName(Parent(jarPath), name);
    } else {
      var versionDir := Parent(Parent(jarPath));
      FirstHoldingSpec(listing(versionDir), name, fileExists, isDir);
      var r := FindSourcesJar(jarPath, fileExists, isDir, listing);
      if r.Some? {
        var i :| 0 <= i < |listing(versionDir)| && r.value == listing(versionDir)[i] + "/" + name && fileExists(r.value);
        EndsInName(listing(versionDir)[i], name);
      }
    }
  }
}
