/**
 * The write side of the call-graph document store (`StorageWriter`): entries
 * are stamped with four tracking fields and added to the collection in
 * batches of 500; a cache store can be copied into it page by page.
 * Entry identifiers (random UUIDs) and the batch timestamp are parameters.
 */
module StorageWriter {
  import opened Common
  import QueryEngine

  /** A vector handed to the store; `ZeroVector` is fast mode's one-element `[0.0]`. */
  datatype Vector = ZeroVector | Opaque(key: int)

  /** A stored entry; no embedding means the collection computes it from the document. */
  datatype StoredEntry = StoredEntry(id: string, document: string, metadata: Record, embedding: Option<Vector>)

  /** One entry handed to `add_entries`; `None` stands for a missing key. */
  datatype InputEntry = InputEntry(document: Option<string>, metadata: Option<Record>)

  const EmbeddingModelName: string := "all-MiniLM-L6-v2"
  const DocumentStrategyVersion: string := "1.0"
  const NoEmbeddingValue: string := "none"
  const BatchSize: nat := 500

  const TrackingKeys: set<string> :=
    {"embedding_model_name", "document_strategy_version", "embedding_timestamp", "scan_timestamp"}

  /** The metadata without its `None` values, which the store refuses. */
  function DropNulls(m: Record): (r: Record)
    ensures forall k :: k in r <==> k in m && m[k] != VNull
    ensures forall k :: k in r ==> r[k] == m[k]
  {
    map k | k in m && m[k] != VNull :: m[k]
  }

  /** The four tracking fields of one batch. */
  function Tracking(model: string, version: string, timestamp: string): Record {
    map["embedding_model_name" := VStr(model), "document_strategy_version" := VStr(version),
        "embedding_timestamp" := VStr(timestamp), "scan_timestamp" := VStr(timestamp)]
  }

  /** The stored form of one input entry. */
  function Prepare(e: InputEntry, id: string, model: string, version: string, timestamp: string,
                   embedding: Option<Vector>): (s: StoredEntry)
    ensures s.id == id && s.embedding == embedding
    ensures s.document == if e.document.Some? then e.document.value else ""
    ensures VNull !in s.metadata.Values
    ensures TrackingKeys <= s.metadata.Keys
    ensures s.metadata["embedding_model_name"] == VStr(model)
    ensures s.metadata["document_strategy_version"] == VStr(version)
    ensures s.metadata["embedding_timestamp"] == VStr(timestamp) && s.metadata["scan_timestamp"] == VStr(timestamp)
    ensures forall k :: k in s.metadata && k !in TrackingKeys ==>
              e.metadata.Some? && k in e.metadata.value && s.metadata[k] == e.metadata.value[k]
    ensures e.metadata.Some? ==> forall k :: k in e.metadata.value && e.metadata.value[k] != VNull ==> k in s.metadata
  {
    var m := if e.metadata.Some? then e.metadata.value else map[];
    var md := DropNulls(m) + Tracking(model, version, timestamp);
    assert forall v :: v in md.Values ==> v != VNull by {
      forall v | v in md.Values ensures v != VNull {
        var k :| k in md && md[k] == v;
      }
    }
    StoredEntry(id, if e.document.Some? then e.document.value else "", md, embedding)
  }

  /** The sizes of the `add` calls that store `n` entries from position `i` on, `b` at a time. */
  function Batches(n: nat, i: nat, b: nat): seq<nat>
    requires b > 0
    decreases n - i
  {
    if i >= n then [] else [QueryEngine.Min(b, n - i)] + Batches(n, i + QueryEngine.Min(b, n - i), b)
  }

  /** One `add` call of the batching loop, moved from the calls still to come to the calls made. */
  lemma BatchesStep(n: nat, i: nat, b: nat, calls: seq<nat>)
    requires b > 0 && i < n
    ensures calls + Batches(n, i, b)
            == (calls + [QueryEngine.Min(b, n - i)]) + Batches(n, i + QueryEngine.Min(b, n - i), b)
  {
  }

  function Sum(s: seq<nat>): nat {
    if |s| == 0 then 0 else s[0] + Sum(s[1..])
  }

  /** No call exceeds the batch size, none is empty, and together they store every entry. */
  lemma {:induction false} BatchesSpec(n: nat, i: nat, b: nat)
    requires b > 0 && i <= n
    ensures forall k :: 0 <= k < |Batches(n, i, b)| ==> 0 < Batches(n, i, b)[k] <= b
    ensures Sum(Batches(n, i, b)) == n - i
    decreases n - i
  {
    if i < n {
      var step := QueryEngine.Min(b, n - i);
      BatchesSpec(n, i + step, b);
      var rest := Batches(n, i + step, b);
      var all := Batches(n, i, b);
      assert all == [step] + rest;
      assert all[1..] == rest;
      assert Sum(all) == step + Sum(rest);
      forall k | 0 <= k < |all| ensures 0 < all[k] <= b {
        if k > 0 {
          assert all[k] == rest[k - 1];
        }
      }
    }
  }

  /** An entry is outdated by a different strategy version, or by having no embedding model. */
  datatype Clause = Differs(key: string, value: string) | Equals(key: string, value: string)

  predicate Holds(m: Record, c: Clause) {
    match c
    case Differs(k, v) => k in m && m[k] != VStr(v)
    case Equals(k, v) => k in m && m[k] == VStr(v)
  }

  /** The `where` clauses of `get_outdated_entries`, combined by "or". */
  function OutdatedClauses(checkStrategy: bool, checkLibrary: bool, version: string): (cs: seq<Clause>)
    ensures |cs| == (if checkStrategy then 1 else 0) + (if checkLibrary then 1 else 0)
    ensures checkStrategy ==> cs[0] == Differs("document_strategy_version", version)
    ensures checkLibrary ==> cs[|cs| - 1] == Equals("embedding_model_name", NoEmbeddingValue)
  {
    (if checkStrategy then [Differs("document_strategy_version", version)] else [])
    + (if checkLibrary then [Equals("embedding_model_name", NoEmbeddingValue)] else [])
  }

  function Outdated(rows: seq<StoredEntry>, cs: seq<Clause>): (r: seq<StoredEntry>)
    ensures forall e :: e in r <==> e in rows && exists i :: 0 <= i < |cs| && Holds(e.metadata, cs[i])
    decreases |rows|
  {
    if |rows| == 0 then []
    else
      var last := rows[|rows| - 1];
      Outdated(rows[..|rows| - 1], cs) + (if exists i :: 0 <= i < |cs| && Holds(last.metadata, cs[i]) then [last] else [])
  }

  /** The vector `add_entries` hands over: none with embeddings on (the collection computes it), `[0.0]` in fast mode. */
  function EmbeddingFor(useEmbeddings: bool): Option<Vector> {
    if useEmbeddings then None else Some(ZeroVector)
  }

  /** Python's `min(total, limit)` when a limit is given, else the total. */
  function MaxToCopy(total: nat, limit: Option<nat>): (m: nat)
    ensures m <= total
    ensures limit.Some? ==> m <= limit.value && (m == total || m == limit.value)
    ensures limit.None? ==> m == total
  {
    if limit.Some? then QueryEngine.Min(total, limit.value) else total
  }

  predicate AnyEmbedding(page: seq<StoredEntry>) {
    exists i :: 0 <= i < |page| && page[i].embedding.Some?
  }

  /** A page as it is handed to `add`: with its embeddings only if one of them is present. */
  function ForAdd(page: seq<StoredEntry>): (r: seq<StoredEntry>)
    ensures |r| == |page|
  {
    if AnyEmbedding(page) then page else seq(|page|, i requires 0 <= i < |page| => page[i].(embedding := None))
  }

  lemma {:induction false} ForAddSpec(page: seq<StoredEntry>)
    ensures forall i :: 0 <= i < |page| ==>
              ForAdd(page)[i].id == page[i].id && ForAdd(page)[i].document == page[i].document
              && ForAdd(page)[i].metadata == page[i].metadata
    ensures AnyEmbedding(page) ==> ForAdd(page) == page
    ensures !AnyEmbedding(page) ==> forall i :: 0 <= i < |page| ==> ForAdd(page)[i].embedding.None?
  {
  }

  /**
   * The pages the copy loop fetches from `offset` on: `min(batch, max -
   * offset)` cached entries at a time, until `max` is reached or a page
   * comes back empty.
   */
  function Pages<T>(cache: seq<T>, offset: nat, max: nat, batch: nat): seq<seq<T>>
    requires batch > 0
    decreases max - offset
  {
    if offset >= max then []
    else
      var page := QueryEngine.Slice(cache, offset, QueryEngine.Min(batch, max - offset));
      if |page| == 0 then [] else [page] + Pages(cache, offset + |page|, max, batch)
  }

  /** What the copy loop adds from `offset` on: each page as it is handed to `add`. */
  function CopyPages(cache: seq<StoredEntry>, offset: nat, max: nat, batch: nat): seq<StoredEntry>
    requires batch > 0
  {
    FlatMap(Pages(cache, offset, max, batch), ForAdd)
  }

  /**
   * One round of the copy loop: before `max` the page at `offset` is not
   * empty, and the pages from `offset` are it followed by the pages from
   * just past it.
   */
  lemma {:induction false} PagesUnfold<T>(cache: seq<T>, offset: nat, max: nat, batch: nat)
    requires batch > 0 && offset < max <= |cache|
    ensures var page := QueryEngine.Slice(cache, offset, QueryEngine.Min(batch, max - offset));
      |page| == QueryEngine.Min(batch, max - offset) > 0
      && Pages(cache, offset, max, batch) == [page] + Pages(cache, offset + |page|, max, batch)
  {
  }

  /** Within the cache, the pages are non-empty and hold at most `batch` entries each. */
  lemma {:induction false} PagesBounded<T>(cache: seq<T>, offset: nat, max: nat, batch: nat)
    requires batch > 0 && offset <= max <= |cache|
    ensures forall k :: 0 <= k < |Pages(cache, offset, max, batch)| ==>
              0 < |Pages(cache, offset, max, batch)[k]| <= batch
    decreases max - offset
  {
    if offset < max {
      var page := QueryEngine.Slice(cache, offset, QueryEngine.Min(batch, max - offset));
      PagesUnfold(cache, offset, max, batch);
      var rest := Pages(cache, offset + |page|, max, batch);
      PagesBounded(cache, offset + |page|, max, batch);
      forall k | 0 <= k < |[page] + rest| ensures 0 < |([page] + rest)[k]| <= batch {
        if k > 0 {
          assert ([page] + rest)[k] == rest[k - 1];
        }
      }
    }
  }

  /** Laid end to end, the pages are the cached entries from `offset` up to `max`. */
  lemma {:induction false} PagesFlatten<T>(cache: seq<T>, offset: nat, max: nat, batch: nat)
    requires batch > 0 && offset <= max <= |cache|
    ensures Flatten(Pages(cache, offset, max, batch)) == cache[offset..max]
    decreases max - offset
  {
    if offset < max {
      var page := QueryEngine.Slice(cache, offset, QueryEngine.Min(batch, max - offset));
      PagesUnfold(cache, offset, max, batch);
      var rest := Pages(cache, offset + |page|, max, batch);
      PagesFlatten(cache, offset + |page|, max, batch);
      FlattenCons(page, rest);
      assert page == cache[offset..offset + |page|];
      SliceSplit(cache, offset, offset + |page|, max);
    } else {
      assert cache[offset..max] == [];
    }
  }

  /**
   * One round of the copy loop: the page at `offset` is not empty, and once
   * it is added what is left to add is the pages from the offset `next`
   * just past it.
   */
  lemma {:induction false} CopyStep(cache: seq<StoredEntry>, offset: nat, max: nat, batch: nat, page: seq<StoredEntry>, done: seq<StoredEntry>)
    requires batch > 0 && offset < max <= |cache|
    requires page == QueryEngine.Slice(cache, offset, QueryEngine.Min(batch, max - offset))
    ensures |page| > 0
    ensures forall next: nat {:trigger CopyPages(cache, next, max, batch)} :: next == offset + |page| ==>
              (done + ForAdd(page)) + CopyPages(cache, next, max, batch) == done + CopyPages(cache, offset, max, batch)
  {
    PagesUnfold(cache, offset, max, batch);
    forall next: nat | next == offset + |page|
      ensures (done + ForAdd(page)) + CopyPages(cache, next, max, batch) == done + CopyPages(cache, offset, max, batch)
    {
      var rest := Pages(cache, next, max, batch);
      FlatMapCons(page, rest, ForAdd);
      ConcatStep(done, ForAdd(page), FlatMap(rest, ForAdd), CopyPages(cache, offset, max, batch));
    }
  }

  /** `r` holds the entries of `cache` from `offset` on, with an embedding only where the cached entry had that one. */
  predicate CopiedFrom(r: seq<StoredEntry>, cache: seq<StoredEntry>, offset: nat) {
    offset + |r| <= |cache|
    && forall i {:trigger r[i]} :: 0 <= i < |r| ==>
         r[i].id == cache[offset + i].id && r[i].document == cache[offset + i].document
         && r[i].metadata == cache[offset + i].metadata
         && (r[i].embedding.Some? ==> r[i].embedding == cache[offset + i].embedding)
  }

  /** The copy holds exactly the cached entries from `offset` up to `max`, in order. */
  lemma CopyPagesSpec(cache: seq<StoredEntry>, offset: nat, max: nat, batch: nat)
    requires batch > 0 && offset <= max <= |cache|
    ensures |CopyPages(cache, offset, max, batch)| == max - offset
    ensures CopiedFrom(CopyPages(cache, offset, max, batch), cache, offset)
  {
    var ps := Pages(cache, offset, max, batch);
    PagesFlatten(cache, offset, max, batch);
    AddedCopied(ps, cache, offset);
  }

  /** Pages that lie end to end in the cache from `offset` on are added as a copy of those entries. */
  lemma {:induction false} AddedCopied(ps: seq<seq<StoredEntry>>, cache: seq<StoredEntry>, offset: nat)
    requires offset + |Flatten(ps)| <= |cache| && Flatten(ps) == cache[offset..offset + |Flatten(ps)|]
    ensures |FlatMap(ps, ForAdd)| == |Flatten(ps)| && CopiedFrom(FlatMap(ps, ForAdd), cache, offset)
    decreases |ps|
  {
    if |ps| > 0 {
      var init, last := ps[..|ps| - 1], ps[|ps| - 1];
      var a, b := Flatten(init), FlatMap(init, ForAdd);
      assert Flatten(ps) == a + last;
      assert FlatMap(ps, ForAdd) == b + ForAdd(last);
      assert a == cache[offset..offset + |a|] by {
        assert a == (a + last)[..|a|];
      }
      AddedCopied(init, cache, offset);
      assert last == cache[offset + |a|..offset + |a| + |last|] by {
        assert last == (a + last)[|a|..];
      }
      ForAddCopied(last, cache, offset + |a|);
      CopiedAppend(b, ForAdd(last), cache, offset, offset + |a|);
    }
  }

  lemma {:induction false} CopiedAppend(fa: seq<StoredEntry>, rest: seq<StoredEntry>, cache: seq<StoredEntry>, offset: nat, next: nat)
    requires next == offset + |fa| && CopiedFrom(fa, cache, offset) && CopiedFrom(rest, cache, next)
    ensures CopiedFrom(fa + rest, cache, offset)
  {
    var r := fa + rest;
    forall i | 0 <= i < |r|
      ensures r[i].id == cache[offset + i].id && r[i].document == cache[offset + i].document
              && r[i].metadata == cache[offset + i].metadata
              && (r[i].embedding.Some? ==> r[i].embedding == cache[offset + i].embedding)
    {
      if i < |fa| {
        assert r[i] == fa[i];
      } else {
        assert r[i] == rest[i - |fa|];
      }
    }
  }

  /** One page of cached entries, as added, carries those entries. */
  lemma {:induction false} ForAddCopied(page: seq<StoredEntry>, cache: seq<StoredEntry>, offset: nat)
    requires offset + |page| <= |cache| && page == cache[offset..offset + |page|]
    ensures CopiedFrom(ForAdd(page), cache, offset)
  {
    ForAddSpec(page);
    forall i | 0 <= i < |page| ensures page[i] == cache[offset + i] {
    }
  }

  class Writer {
    const useEmbeddings: bool
    const modelName: string
    const strategyVersion: string
    /** The `call_graph` collection, in insertion order. */
    var rows: seq<StoredEntry>
    /** The number of entries handed to each `add` call so far. */
    ghost var addCalls: seq<nat>

    constructor (useEmbeddings: bool, existing: seq<StoredEntry>)
      ensures this.useEmbeddings == useEmbeddings
      ensures modelName == if useEmbeddings then EmbeddingModelName else NoEmbeddingValue
      ensures strategyVersion == if useEmbeddings then DocumentStrategyVersion else NoEmbeddingValue
      ensures rows == existing && addCalls == []
    {
      this.useEmbeddings := useEmbeddings;
      modelName := if useEmbeddings then EmbeddingModelName else NoEmbeddingValue;
      strategyVersion := if useEmbeddings then DocumentStrategyVersion else NoEmbeddingValue;
      rows := existing;
      addCalls := [];
    }

    /** The stored form of every input entry, in order. */
    function Prepared(entries: seq<InputEntry>, ids: seq<string>, timestamp: string): (r: seq<StoredEntry>)
      requires |ids| == |entries|
      ensures |r| == |entries|
      ensures forall i :: 0 <= i < |r| ==>
                r[i] == Prepare(entries[i], ids[i], modelName, strategyVersion, timestamp, EmbeddingFor(useEmbeddings))
    {
      seq(|entries|, i requires 0 <= i < |entries| =>
        Prepare(entries[i], ids[i], modelName, strategyVersion, timestamp, EmbeddingFor(useEmbeddings)))
    }

    /**
     * `add_entries`: every entry is prepared, then the prepared list is
     * added in consecutive slices of at most 500; nothing happens for no entries.
     */
    method AddEntries(entries: seq<InputEntry>, ids: seq<string>, timestamp: string)
      requires |ids| == |entries|
      modifies this
      ensures rows == old(rows) + Prepared(entries, ids, timestamp)
      ensures addCalls == old(addCalls) + Batches(|entries|, 0, BatchSize)
    {
      if |entries| == 0 {
        return;
      }
      var prepared := PrepareAll(entries, ids, timestamp);
      AddInBatches(prepared);
    }

    /** The preparing loop of `add_entries`: one stored form per input entry, in order. */
    method PrepareAll(entries: seq<InputEntry>, ids: seq<string>, timestamp: string) returns (prepared: seq<StoredEntry>)
      requires |ids| == |entries|
      ensures prepared == Prepared(entries, ids, timestamp)
    {
      ghost var all := Prepared(entries, ids, timestamp);
      prepared := [];
      var j := 0;
      while j < |entries|
        invariant 0 <= j <= |entries|
        invariant prepared == all[..j]
      {
        var it := Prepare(entries[j], ids[j], modelName, strategyVersion, timestamp, EmbeddingFor(useEmbeddings));
        TakeSnoc(all, j);
        prepared := prepared + [it];
        j := j + 1;
      }
      assert prepared == all;
    }

    /** The batching loop of `add_entries`: consecutive slices of at most 500, one `add` call each. */
    method AddInBatches(prepared: seq<StoredEntry>)
      modifies this
      ensures rows == old(rows) + prepared
      ensures addCalls == old(addCalls) + Batches(|prepared|, 0, BatchSize)
    {
      var n := |prepared|;
      var i := 0;
      while i < n
        invariant 0 <= i <= n
        invariant rows == old(rows) + prepared[..i]
        invariant old(addCalls) + Batches(n, 0, BatchSize) == addCalls + Batches(n, i, BatchSize)
        decreases n - i
      {
        var size := QueryEngine.Min(BatchSize, n - i);
        TakeSlice(prepared, i, i + size);
        BatchesStep(n, i, BatchSize, addCalls);
        rows := rows + prepared[i..i + size];
        addCalls := addCalls + [size];
        i := i + size;
      }
      assert prepared[..i] == prepared && Batches(n, i, BatchSize) == [];
      assert addCalls + [] == addCalls;
    }

    /** `reset`: the collection is dropped and recreated empty. */
    method Reset()
      modifies this
      ensures rows == [] && addCalls == old(addCalls)
    {
      rows := [];
    }

    /**
     * `get_outdated_entries`: nothing without a check; otherwise the entries
     * matching either clause, or nothing when the store rejects the filter.
     */
    function GetOutdatedEntries(checkStrategy: bool, checkLibrary: bool, filterFails: bool): (r: seq<StoredEntry>)
      reads this
      ensures !checkStrategy && !checkLibrary ==> r == []
      ensures filterFails ==> r == []
      ensures forall e :: e in r ==> e in rows
      ensures forall e :: e in r ==>
                (checkStrategy && Holds(e.metadata, Differs("document_strategy_version", strategyVersion)))
                || (checkLibrary && Holds(e.metadata, Equals("embedding_model_name", NoEmbeddingValue)))
      ensures !filterFails ==> forall e :: (e in rows && checkStrategy
                && Holds(e.metadata, Differs("document_strategy_version", strategyVersion))) ==> e in r
      ensures !filterFails ==> forall e :: (e in rows && checkLibrary
                && Holds(e.metadata, Equals("embedding_model_name", NoEmbeddingValue))) ==> e in r
    {
      var cs := OutdatedClauses(checkStrategy, checkLibrary, strategyVersion);
      if |cs| == 0 || filterFails then [] else Outdated(rows, cs)
    }

    /**
     * `copy_from_cache`: nothing when the cache cannot be opened; otherwise
     * pages of `min(batch, remaining)` entries are fetched and added until
     * `min(total, limit)` entries are copied or a page comes back empty.
     */
    method CopyFromCache(cache: Option<seq<StoredEntry>>, batch: nat, limit: Option<nat>) returns (copied: nat)
      requires batch > 0
      modifies this
      ensures cache.None? ==> copied == 0 && rows == old(rows)
      ensures cache.Some? ==> copied == MaxToCopy(|cache.value|, limit)
                              && rows == old(rows) + CopyPages(cache.value, 0, copied, batch)
    {
      if cache.None? {
        return 0;
      }
      var entries := cache.value;
      var max := MaxToCopy(|entries|, limit);
      if max == 0 {
        assert old(rows) + [] == old(rows);
        return 0;
      }
      copied := 0;
      var offset := 0;
      while offset < max && copied < max
        invariant offset == copied <= max
        invariant rows + CopyPages(entries, offset, max, batch) == old(rows) + CopyPages(entries, 0, max, batch)
        decreases max - offset
      {
        var remaining := max - copied;
        var size := QueryEngine.Min(batch, remaining);
        var page := QueryEngine.Slice(entries, offset, size);
        CopyStep(entries, offset, max, batch, page, rows);
        if |page| == 0 {
          assert false;
          break;
        }
        rows := rows + ForAdd(page);
        copied := copied + |page|;
        offset := offset + |page|;
      }
      AppendEmpty(rows);
    }
  }
}
