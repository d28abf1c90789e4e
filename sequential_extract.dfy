/**
 * The sequential extractors' outer loop, shared by the Java and the XML
 * graph extractor: which repositories are scanned, and how the entries of
 * successive files are yielded until an entry limit is reached.
 */
module SequentialExtract {
  import opened Common

  /** The repository configuration file: absent, unreadable, or read (with or without `repositories`). */
  datatype Config = Missing | Unreadable | Loaded(repositories: Option<seq<string>>)

  const DefaultRepos: seq<string> := ["modules"]

  /**
   * The repositories to scan: those given to the constructor, even an empty
   * list; otherwise the configuration's `repositories`; `["modules"]` when
   * the file is missing, unreadable or has no such key.
   */
  function Repos(given: Option<seq<string>>, config: Config): (r: seq<string>)
    ensures given.Some? ==> r == given.value
    ensures given.None? ==> r == DefaultRepos || (config.Loaded? && config.repositories.Some? && r == config.repositories.value)
    ensures given.None? && !config.Loaded? ==> r == DefaultRepos
  {
    if given.Some? then given.value
    else match config
      case Loaded(Some(rs)) => rs
      case _ => DefaultRepos
  }

  /**
   * `extract_all`: the files are visited in order; no file is opened once
   * `limit` entries were yielded, and a file's entries are yielded one by
   * one until the limit is hit. `files[i]` are the entries extracting the
   * i-th file gives (none when it fails). Returns the entries yielded and
   * the number of files extracted.
   */
  method ExtractAll<T>(files: seq<seq<T>>, limit: Option<nat>) returns (yielded: seq<T>, scanned: nat)
    ensures scanned <= |files|
    ensures |yielded| <= |Flatten(files)| && yielded == Flatten(files)[..|yielded|]
    ensures limit.None? ==> yielded == Flatten(files) && scanned == |files|
    ensures limit.Some? ==> |yielded| == if limit.value < |Flatten(files)| then limit.value else |Flatten(files)|
    ensures limit.Some? && scanned > 0 ==> |Flatten(files[..scanned - 1])| < limit.value
    ensures limit.Some? && scanned < |files| ==> |yielded| == limit.value
  {
    yielded := [];
    var total := 0;
    scanned := 0;
    while scanned < |files|
      invariant 0 <= scanned <= |files|
      invariant total == |yielded|
      invariant limit.None? ==> yielded == Flatten(files[..scanned])
      invariant limit.Some? ==> yielded == Flatten(files[..scanned])[..Cut(limit.value, |Flatten(files[..scanned])|)]
      invariant limit.Some? && scanned > 0 ==> |Flatten(files[..scanned - 1])| < limit.value
    {
      if limit.Some? && total >= limit.value {
        break;
      }
      var entries := files[scanned];
      ghost var before := Flatten(files[..scanned]);
      ghost var all := before + entries;
      assert yielded == before;
      var j := 0;
      while j < |entries| && (limit.None? || total < limit.value)
        invariant 0 <= j <= |entries|
        invariant total == |yielded| == |before| + j
        invariant yielded == all[..|before| + j]
        invariant limit.Some? ==> total <= limit.value
      {
        TakeSnoc(all, |before| + j);
        yielded := yielded + [entries[j]];
        total := total + 1;
        j := j + 1;
      }
      FileStep(files, scanned, limit, yielded, j);
      scanned := scanned + 1;
    }
    ExtractEnd(files, limit, yielded, scanned);
  }

  /** After the entries of file `k` were yielded, up to the limit, the outer invariant holds for `k + 1`. */
  lemma FileStep<T>(files: seq<seq<T>>, k: nat, limit: Option<nat>, yielded: seq<T>, j: nat)
    requires k < |files| && j <= |files[k]|
    requires limit.Some? ==> |Flatten(files[..k])| < limit.value && |yielded| <= limit.value
    requires yielded == (Flatten(files[..k]) + files[k])[..|Flatten(files[..k])| + j]
    requires j < |files[k]| ==> limit.Some? && |yielded| >= limit.value
    ensures limit.None? ==> yielded == Flatten(files[..k + 1])
    ensures limit.Some? ==> yielded == Flatten(files[..k + 1])[..Cut(limit.value, |Flatten(files[..k + 1])|)]
  {
    assert files[..k + 1] == files[..k] + [files[k]];
    FlattenSnoc(files[..k], files[k]);
    var all := Flatten(files[..k]) + files[k];
    if j == |files[k]| {
      assert all[..|all|] == all;
    }
  }

  /** When the loop stops, the invariant gives what `extract_all` promises. */
  lemma ExtractEnd<T>(files: seq<seq<T>>, limit: Option<nat>, yielded: seq<T>, scanned: nat)
    requires scanned <= |files|
    requires limit.None? ==> yielded == Flatten(files[..scanned]) && scanned == |files|
    requires limit.Some? ==> yielded == Flatten(files[..scanned])[..Cut(limit.value, |Flatten(files[..scanned])|)]
    requires limit.Some? && scanned > 0 ==> |Flatten(files[..scanned - 1])| < limit.value
    requires scanned == |files| || (limit.Some? && |yielded| >= limit.value)
    ensures |yielded| <= |Flatten(files)| && yielded == Flatten(files)[..|yielded|]
    ensures limit.None? ==> yielded == Flatten(files) && scanned == |files|
    ensures limit.Some? ==> |yielded| == if limit.value < |Flatten(files)| then limit.value else |Flatten(files)|
    ensures limit.Some? && scanned < |files| ==> |yielded| == limit.value
  {
    FlattenPrefix(files, scanned);
    if scanned == |files| {
      assert files[..scanned] == files;
    }
  }

  /** How many of `n` entries a limit `l` lets through. */
  function Cut(l: nat, n: nat): nat {
    if l < n then l else n
  }

  /** The entries of the first `k` files come first. */
  lemma {:induction false} FlattenPrefix<T>(bs: seq<seq<T>>, k: nat)
    requires k <= |bs|
    ensures |Flatten(bs[..k])| <= |Flatten(bs)| && Flatten(bs[..k]) == Flatten(bs)[..|Flatten(bs[..k])|]
    decreases |bs|
  {
    if k < |bs| {
      var init := bs[..|bs| - 1];
      assert bs[..k] == init[..k];
      FlattenPrefix(init, k);
      assert bs == init + [bs[|bs| - 1]];
      FlattenSnoc(init, bs[|bs| - 1]);
    } else {
      assert bs[..k] == bs;
    }
  }
}
