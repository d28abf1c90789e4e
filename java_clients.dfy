/**
 * The two Python clients of the source analysis service (the threaded and
 * the sequential Java extractor): the request they send for one file, the
 * rule that accepts or rejects the service's answer, and the entries they
 * make of the usages. Both clients apply the same rules.
 */
module JavaClients {
  import opened Common
  import opened StringUtil

  /** The JSON body posted to `/analyze` for one file. */
  datatype AnalyzeRequest = AnalyzeRequest(files: seq<string>, repos: Option<seq<string>>)

  /** The request for one file: its resolved path, and the resolved repositories when there are any. */
  function RequestFor(path: string, repos: Option<seq<string>>, resolve: string -> string): (r: AnalyzeRequest)
    ensures r.files == [resolve(path)]
    ensures r.repos.Some? <==> repos.Some? && |repos.value| > 0
    ensures r.repos.Some? ==> |r.repos.value| == |repos.value|
                              && forall i :: 0 <= i < |repos.value| ==> r.repos.value[i] == resolve(repos.value[i])
  {
    var given := if repos.Some? then repos.value else [];
    AnalyzeRequest([resolve(path)],
                   if |given| > 0 then Some(seq(|given|, i requires 0 <= i < |given| => resolve(given[i]))) else None)
  }

  // ---------------------------------------------------------------------
  // Documents

  /** `metadata.get(k1, metadata.get(k2, default))`. */
  function GetEither(md: Record, k1: string, k2: string, default: Value): Value {
    Get(md, k1, Get(md, k2, default))
  }

  function UsageTypeOf(md: Record): Value {
    GetEither(md, "usageType", "usage_type", VStr("unknown"))
  }

  function CalleeOf(md: Record): Value {
    GetEither(md, "calleeSymbol", "callee_name", VStr(""))
  }

  function CallerOf(md: Record): Value {
    GetEither(md, "callerSymbol", "caller_method", VStr(""))
  }

  function CallerFqnOf(md: Record): Value {
    Get(md, "caller_fqn", VStr(""))
  }

  /**
   * The text embedded for one usage: "type: callee", then " in caller()"
   * when there is a caller and " at fqn" when there is a caller FQN.
   */
  function Document(md: Record): string {
    Show(UsageTypeOf(md)) + ": " + Show(CalleeOf(md))
      + (if Truthy(CallerOf(md)) then " in " + Show(CallerOf(md)) + "()" else "")
      + (if Truthy(CallerFqnOf(md)) then " at " + Show(CallerFqnOf(md)) else "")
  }

  /** The head is always "type: callee"; the tail is decided by which of caller and caller FQN are present. */
  lemma DocumentShape(md: Record)
    ensures var head := Show(UsageTypeOf(md)) + ": " + Show(CalleeOf(md));
      StartsWith(Document(md), head)
      && (Truthy(CallerFqnOf(md)) ==> EndsWith(Document(md), " at " + Show(CallerFqnOf(md))))
      && (!Truthy(CallerFqnOf(md)) && Truthy(CallerOf(md)) ==> EndsWith(Document(md), " in " + Show(CallerOf(md)) + "()"))
      && (!Truthy(CallerFqnOf(md)) && !Truthy(CallerOf(md)) ==> Document(md) == head)
  {
    var head := Show(UsageTypeOf(md)) + ": " + Show(CalleeOf(md));
    var mid := if Truthy(CallerOf(md)) then " in " + Show(CallerOf(md)) + "()" else "";
    var tail := if Truthy(CallerFqnOf(md)) then " at " + Show(CallerFqnOf(md)) else "";
    assert Document(md) == head + mid + tail;
    assert (head + mid + tail)[..|head|] == head;
    assert (head + mid + tail)[|head + mid|..] == tail;
    assert (head + mid)[|head|..] == mid;
  }

  /** The camel-case keys win over the older ones, and absent keys give "unknown" and "". */
  lemma DocumentFallbacks(md: Record)
    ensures "usageType" in md ==> UsageTypeOf(md) == md["usageType"]
    ensures "usageType" !in md && "usage_type" in md ==> UsageTypeOf(md) == md["usage_type"]
    ensures "usageType" !in md && "usage_type" !in md ==> Show(UsageTypeOf(md)) == "unknown"
    ensures "calleeSymbol" !in md && "callee_name" !in md ==> Show(CalleeOf(md)) == ""
    ensures "callerSymbol" !in md && "caller_method" !in md && "caller_fqn" !in md ==>
              Document(md) == Show(UsageTypeOf(md)) + ": " + Show(CalleeOf(md))
  {
  }

  /** `_parse_usages`: one entry per usage, in order, its metadata passed through. */
  function ParseUsages(usages: seq<Record>): seq<Entry> {
    seq(|usages|, i requires 0 <= i < |usages| => Entry(Document(usages[i]), usages[i]))
  }

  /** Nothing is dropped, reordered or rewritten: the metadata of the entries are the usages. */
  lemma ParseUsagesMetadata(usages: seq<Record>)
    ensures |ParseUsages(usages)| == |usages|
    ensures Metadata(ParseUsages(usages)) == usages
  {
  }

  function Metadata(es: seq<Entry>): seq<Record> {
    seq(|es|, i requires 0 <= i < |es| => es[i].metadata)
  }

  // ---------------------------------------------------------------------
  // Accepting the answer

  /** One file's result as the client reads it: the `success` flag, `errors` (when present) and `usages`. */
  datatype FileResult = FileResult(success: bool, errors: Option<seq<string>>, usages: seq<Record>)

  /** The first unsuccessful result, if any. */
  function FirstFailure(results: seq<FileResult>): Option<FileResult>
    decreases |results|
  {
    if |results| == 0 then None
    else if !results[0].success then Some(results[0])
    else FirstFailure(results[1..])
  }

  /** The error raised for a failed result: its first error, "Unknown error" without a list, and an index error for an empty one. */
  function FailureMessage(r: FileResult): string {
    var errors := if r.errors.Some? then r.errors.value else ["Unknown error"];
    if |errors| == 0 then "IndexError: list index out of range" else "JavaParser failed: " + errors[0]
  }

  function SuccessfulEntries(results: seq<FileResult>): seq<Entry>
    decreases |results|
  {
    if |results| == 0 then []
    else
      var last := results[|results| - 1];
      SuccessfulEntries(results[..|results| - 1]) + (if last.success then ParseUsages(last.usages) else [])
  }

  /**
   * `extract_from_file` on the service's answer: when some file failed and
   * some result is unsuccessful, the first such result's error is raised;
   * otherwise the entries of the successful results, in order.
   */
  function Accept(failed: int, results: seq<FileResult>): Result<seq<Entry>> {
    if failed > 0 && FirstFailure(results).Some? then Err(FailureMessage(FirstFailure(results).value))
    else Ok(SuccessfulEntries(results))
  }

  lemma {:induction false} FirstFailureSpec(results: seq<FileResult>)
    ensures FirstFailure(results).None? <==> forall i :: 0 <= i < |results| ==> results[i].success
    ensures FirstFailure(results).Some? ==>
              exists i :: 0 <= i < |results| && results[i] == FirstFailure(results).value && !results[i].success
                          && forall j :: 0 <= j < i ==> results[j].success
    decreases |results|
  {
    if |results| > 0 && results[0].success {
      FirstFailureSpec(results[1..]);
      if FirstFailure(results[1..]).Some? {
        var i :| 0 <= i < |results[1..]| && results[1..][i] == FirstFailure(results[1..]).value && !results[1..][i].success
                 && forall j :: 0 <= j < i ==> results[1..][j].success;
        assert results[i + 1] == results[1..][i];
        forall j | 0 <= j < i + 1 ensures results[j].success {
          if j > 0 {
            assert results[j] == results[1..][j - 1];
          }
        }
      } else {
        forall i | 0 <= i < |results| ensures results[i].success {
          if i > 0 {
            assert results[i] == results[1..][i - 1];
          }
        }
      }
    }
  }

  /**
   * An answer is refused exactly when it reports a failure and holds an
   * unsuccessful result; an accepted answer yields every usage of the
   * successful results and no other.
   */
  lemma {:induction false} AcceptRule(failed: int, results: seq<FileResult>, md: Record)
    ensures Accept(failed, results).Err? <==> failed > 0 && exists i :: 0 <= i < |results| && !results[i].success
    ensures Accept(failed, results).Ok? ==>
              (md in Metadata(Accept(failed, results).value) <==>
               exists i :: 0 <= i < |results| && results[i].success && md in results[i].usages)
  {
    FirstFailureSpec(results);
    SuccessfulMetadata(results, md);
  }

  lemma {:induction false} SuccessfulMetadata(results: seq<FileResult>, md: Record)
    ensures md in Metadata(SuccessfulEntries(results)) <==>
            exists i :: 0 <= i < |results| && results[i].success && md in results[i].usages
    decreases |results|
  {
    if |results| > 0 {
      var init := results[..|results| - 1];
      var last := results[|results| - 1];
      SuccessfulMetadata(init, md);
      var a := SuccessfulEntries(init);
      var b := if last.success then ParseUsages(last.usages) else [];
      assert Metadata(a + b) == Metadata(a) + Metadata(b);
      ParseUsagesMetadata(last.usages);
      if exists i :: 0 <= i < |init| && init[i].success && md in init[i].usages {
        var i :| 0 <= i < |init| && init[i].success && md in init[i].usages;
        assert results[i] == init[i];
      }
      if exists i :: 0 <= i < |results| && results[i].success && md in results[i].usages {
        var i :| 0 <= i < |results| && results[i].success && md in results[i].usages;
        if i < |init| {
          assert init[i] == results[i];
        }
      }
    }
  }
}
