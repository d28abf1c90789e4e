# CallGraph core, modelled in Dafny

CallGraph indexes the relationships in an Axelor/Java/TypeScript code base and answers recursive "who uses X" questions over them. Extractors turn sources into facts:
- Java sources are parsed by the source analysis service (`JavaASTService`, `UsageCollector`);
- bytecode is read by the bytecode analysis service (`ASMAnalysisService`, `ClassAnalyzer`);
- Axelor XML views and actions, TypeScript files, Gradle dependency reports and the Axelor view schema are read by Python extractors.

The facts go into two stores. One is a SQLite call graph of nodes keyed by fully qualified name (FQN) and edges that only grow. The other is a document store of usage entries with tracking metadata. The query engine walks the document store with depth limits, a shared visited set and offset/limit pagination.

This project models that core, one Dafny module per source file:

| module | file | models |
|---|---|---|
| `GraphStore` | graph_store.dfy | `SQLiteStorage.py`: the node map and edge list as a class, with stub creation and batch inserts |
| `AsmExtractor` | asm_extractor.dfy | `ASMExtractor.py`: the symbol index, the content-hash re-index gate, module names, local URIs, node and edge rows, package assignment |
| `QueryEngine` | query_engine.dfy | `call_graph_service.py`: `find_usages`, `raw_usages`, `get_definition`, `find_callees`, `impact_analysis`, `search_by_file` |
| `StorageWriter` | storage_writer.dfy | `StorageWriter.py`: `add_entries`, outdated entries, `reset`, `copy_from_cache` |
| `ExtractionManager` | extraction_manager.dfy | `ExtractionManager.py`: routing and batching of per-repository results; the cache-or-extract decision |
| `XmlTree`, `XmlReferences` | xml_tree.dfy, xml_references.dfy | `AxelorXmlExtractor.py` and `extract_xml_graph.py`: ancestor walks, model resolution and the reference builders |
| `SequentialExtract` | sequential_extract.dfy | the sequential `extract_all` and repository selection of the two graph scripts |
| `UsageCollector` | usage_collector.dfy | `UsageCollector.java`: domain patterns, generic splitting, URIs, FQN builders, bidirectional usages, the visitor's state |
| `JavaAstService` | java_ast_service.dfy | `JavaASTService.java`: `extractModule`, source-directory discovery, the parser cache, processed/failed counts |
| `AnalyzerRecords`, `ClassAnalyzer`, `AsmAnalysis` | analyzer_records.dfy, class_analyzer.dfy, asm_analysis.dfy | `ClassAnalyzer.java` and `ASMAnalysisService.java`: class, field and method records from bytecode events, the request modes, grouping and indexing |
| `JavaClients` | java_clients.dfy | `JavaASTExtractor.py` and `extract_java_graph.py`: the request, the acceptance rule and the usage documents |
| `Gradle` | gradle.dfy | `GradleDependencyManager.py`: the dependency report parser, package naming, the sources-jar search |
| `Xsd` | xsd.dfy | `parse_axelor_xsd.py`: the four attribute and element collections and the sorted metadata |
| `TypeScript` | typescript.dfy | `extract_typescript_graph.py`: literal unquoting and filtering, the string context walk, component and hook names, module path pass-through |
| `Common`, `StringUtil` | common.dfy, strings.dfy | JSON-like values and records, and the string operations the sources rely on (Python `strip`, `split`, `join`, `sorted`; Java `trim`, `indexOf`) |

Some parts of the source change state step by step. Those are classes with `modifies` clauses, or methods with loops proved against specification functions:
- the graph store;
- the symbol-index builder;
- the document writer;
- the result router;
- the XML extractor's passes;
- the Java visitor's collector;
- the parser cache;
- the bytecode visitors and grouping;
- the query loops.

Pure rules are functions, with their properties stated as lemmas.

Where the source relies on the outside world, the model takes that piece as a parameter. This covers:
- the file system (directory walks and existence checks);
- hashing;
- HTTP;
- JavaParser symbol resolution;
- the current time.

Integers are unbounded: no counter, id or line number in the core wraps around within the sizes it handles.

## Model

| member | source | states |
|---|---|---|
| GraphStore.IgnoreRowsKeepsExisting | Extracteurs/SQLiteStorage.py:232-243 | `INSERT OR IGNORE` over a batch never removes or changes a node already stored |
| GraphStore.IgnoreRowsContents | Extracteurs/SQLiteStorage.py:232-243 | after the batch every row with its NOT NULL columns set is stored, each new key comes from some row, and the insert count is the number of new keys, at most the batch size |
| GraphStore.StubNameIsLastSegment | Extracteurs/SQLiteStorage.py:193 | a stub's name holds no '.' and is the text after the FQN's last '.' (the whole FQN when it has none) |
| GraphStore.WithStubsSpec | Extracteurs/SQLiteStorage.py:262-279 | after the stub step both non-empty endpoints exist, stored nodes are untouched, only the endpoints are added, a new source is a 'method', a new target gets `StubKindFor`, and every stub has no signature and uri 'unknown' |
| GraphStore.StubKindForSpec | Extracteurs/SQLiteStorage.py:270-277 | a missing target is a 'method' exactly for a `call` edge whose target holds '(', and a 'class' otherwise |
| GraphStore.AnnotationRows | Extracteurs/SQLiteStorage.py:295-303 | one annotation row per annotation, in list order, each carrying the edge's id |
| GraphStore.InsertablePrefix | Extracteurs/SQLiteStorage.py:340-358 | the rows stored by the batch insert are a prefix of the batch, all of it when every row is complete, each the edge row of its input |
| GraphStore.PendingAnnotations | Extracteurs/SQLiteStorage.py:340-352 | the pending lists are exactly the non-empty annotation lists, each tagged with its edge's batch index, in increasing index order |
| GraphStore.BatchAnnotationRowsSpec | Extracteurs/SQLiteStorage.py:362-375 | every batch annotation row carries id `firstId + idx` of a batch edge `idx` and one of that edge's annotations |
| GraphStore.BatchAnnotationRowsCount | Extracteurs/SQLiteStorage.py:362-375 | the batch writes exactly one row per pending annotation |
| GraphStore.FirstIdAsWrittenFails | Extracteurs/SQLiteStorage.py:360 | with `lastrowid` left unset by `executemany`, the first-id formula raises for every batch size |
| GraphStore.FirstId | Extracteurs/SQLiteStorage.py:360 | the first id of a batch is positive |
| GraphStore.FirstIdAgreesWithFormula | Extracteurs/SQLiteStorage.py:360 | had `lastrowid` been the id of the batch's last row, the written formula would give the id of its first row |
| GraphStore.Store.constructor | Extracteurs/SQLiteStorage.py:75-129 | a new store has empty node, edge and annotation tables |
| GraphStore.Store.FindNode | Extracteurs/SQLiteStorage.py:379-391 | answers the stored node for the FQN, and nothing exactly when it is absent |
| GraphStore.Store.AddNode | Extracteurs/SQLiteStorage.py:131-176 | with update: INSERT OR REPLACE, answering True, or an error on a NULL column with the table unchanged; without: a plain INSERT, answering False and changing nothing on a duplicate or NULL column |
| GraphStore.Store.EnsureNodeExists | Extracteurs/SQLiteStorage.py:178-201 | answers True exactly when the FQN was absent, and adds only that one stub |
| GraphStore.Store.AddNodesBatch | Extracteurs/SQLiteStorage.py:203-247 | the empty list gives (0, 0) and changes nothing; REPLACE mode applies rows up to the first NULL column; IGNORE mode keeps stored nodes and reports `rowcount`, or the list length when that is 0, with inserted + skipped equal to the list length |
| GraphStore.Store.CreateStubs | Extracteurs/SQLiteStorage.py:262-279 | the node table becomes the stub step's result |
| GraphStore.Store.AddEdge | Extracteurs/SQLiteStorage.py:249-306 | optional stubs, then exactly one appended edge row and one annotation row per annotation, answering the new edge id; a NULL column raises and stores no edge |
| GraphStore.Store.StageEdges | Extracteurs/SQLiteStorage.py:324-352 | the staging loop ensures the stubs of every edge, collects every row in order and collects the non-empty annotation lists |
| GraphStore.Store.AnnotationRowsFor | Extracteurs/SQLiteStorage.py:362-375 | the annotation loop produces exactly the batch annotation rows |
| GraphStore.Store.AddEdgesBatch | Extracteurs/SQLiteStorage.py:308-377 | corrected batch insert: the empty list answers 0 and changes nothing; otherwise stubs for every edge, the insertable rows appended, and for a complete batch the answer `len(edges)` with annotation ids numbered from the first new edge |
| GraphStore.Store.AddEdgesBatchAsWritten | Extracteurs/SQLiteStorage.py:308-377 | the batch insert as written: every non-empty batch stores its stubs and rows and then raises before any annotation is written |
| GraphStore.Store.Reset | Extracteurs/SQLiteStorage.py:450-456 | nodes and edges are emptied and the annotation table is left as it was |
| GraphStore.AnnotationsOutliveReset | Extracteurs/SQLiteStorage.py:450-456 | after `reset` and `add_edge` the new edge has id 1, every annotation row is kept, and each kept row with edge id 1 now names the new edge; a refused edge leaves no edge and the annotations as they were |
| GraphStore.IgnoreRowsPresent | Extracteurs/SQLiteStorage.py:232-243 | every row with its NOT NULL columns set is present after INSERT OR IGNORE |
| GraphStore.IgnoreRowsNew | Extracteurs/SQLiteStorage.py:232-243 | a key is new only if some complete row carried it |
| GraphStore.IgnoreRowsCount | Extracteurs/SQLiteStorage.py:232-243 | the insert count is the number of new keys and at most the number of rows |
| AsmExtractor.PathKeys | Extracteurs/ASMExtractor.py:238-239 | one sort key per class file, in order, each the file's path key |
| AsmExtractor.FilesByPathSpec | Extracteurs/ASMExtractor.py:238-239 | indexing files with distinct paths by path key loses and adds nothing: each key maps back to its own file |
| AsmExtractor.PackageHashOrderIndependent | Extracteurs/ASMExtractor.py:223-246 | the package hash depends only on the set of class files, not on the order they are discovered in |
| AsmExtractor.PutAllSpec | Extracteurs/ASMExtractor.py:294-300 | INSERT OR REPLACE of a symbol list: every symbol is stored under the package, the last row of an FQN wins, no other key appears and untouched rows stay |
| AsmExtractor.StoredSymbolsSpec | Extracteurs/ASMExtractor.py:280-307 | after storing, the rows of the package are exactly the given symbols, an FQN owned by another package moves to this one, other packages' untouched rows stay, and nothing else is tagged with another package |
| AsmExtractor.BuildStepGate | Extracteurs/ASMExtractor.py:151-171 | an unchanged package is skipped; a hash is stored only when the package needed reindexing and gave symbols, and then it is the package's current hash so the next run skips it |
| AsmExtractor.NoClassesNeverIndexed | Extracteurs/ASMExtractor.py:259-262 | packages without a `classes` directory change neither the symbols nor the hashes |
| AsmExtractor.FirstVersionDash | Extracteurs/ASMExtractor.py:944 | the search from `i` finds the first "-digits" position on the first line, or there is none on that line |
| AsmExtractor.LazyVersionMatch | Extracteurs/ASMExtractor.py:944 | the lazy `^(.+?)-[\d.]+` match ends its group at the first version dash of the first line, and fails exactly when the first line has none |
| AsmExtractor.ExtractModuleNameSpec | Extracteurs/ASMExtractor.py:931-948 | the module name is the input, or the text before its first version dash; for one-line inputs it is the input exactly when there is no version dash |
| AsmExtractor.ExtractModuleNameVersioned | Extracteurs/ASMExtractor.py:931-948 | "open-auction-base-1.0.0" gives "open-auction-base" |
| AsmExtractor.ExtractModuleNameLazy | Extracteurs/ASMExtractor.py:944 | the lazy match stops at the first dash followed by a digit: "lib-2fa-1.0" gives "lib" |
| AsmExtractor.ModuleNameForFix | Extracteurs/ASMExtractor.py:332-337 | the module of a local package is the text before a version dash of the package name |
| AsmExtractor.ModuleNamesAgree | Extracteurs/ASMExtractor.py:332-337 | the two module-name rules agree whenever the local-package rule finds one |
| AsmExtractor.ClassFqnOfSpec | Extracteurs/ASMExtractor.py:384-391 | the class FQN is the text before the first '(', with the last dotted segment dropped exactly when it starts with a lowercase letter |
| AsmExtractor.LocalUriCandidates | Extracteurs/ASMExtractor.py:399-417 | at least the `src/main/java` candidate is probed |
| AsmExtractor.LocalUriFirstExisting | Extracteurs/ASMExtractor.py:372-419 | the local URI is the first existing candidate; every candidate path is the class FQN with '.' mapped to '/' plus ".java"; the src-gen candidates are probed exactly when the class FQN contains ".db." |
| AsmExtractor.FixUrisSpec | Extracteurs/ASMExtractor.py:345-366 | fixing a package's URIs keeps every row's key and package, changes a row only to a non-empty local URI different from the old one, applies every such URI, and fixing again changes nothing |
| AsmExtractor.FixPackagesKeepsRows | Extracteurs/ASMExtractor.py:309-370 | fixing local packages never adds or removes a symbol row nor changes its package |
| AsmExtractor.ResolvePackagesBatchSpec | Extracteurs/ASMExtractor.py:967-1008 | resolution answers only asked-for FQNs present in the index, with their stored package, only allowed packages when a filter is given, and every FQN that qualifies |
| AsmExtractor.ResolveAfterStore | Extracteurs/ASMExtractor.py:280-307 | a symbol just stored under an allowed package resolves to that package |
| AsmExtractor.MethodEdgesOneMembership | Extracteurs/ASMExtractor.py:649-650 | each method yields exactly one member_of(method to class, 'method') row |
| AsmExtractor.MethodsMemberships | Extracteurs/ASMExtractor.py:644-662 | a class's methods yield one membership row each |
| AsmExtractor.EdgeBatchMemberships | Extracteurs/ASMExtractor.py:616-685 | the edge batch holds exactly one membership row per method of the result |
| AsmExtractor.ClassEdgeRowsJustified | Extracteurs/ASMExtractor.py:616-642 | every inheritance and attribute row of a class comes from one of its parents or fields, with the kind the source gives |
| AsmExtractor.EdgeBatchJustified | Extracteurs/ASMExtractor.py:616-685 | every row of the edge batch is justified by an inheritance entry, field, method, return type, argument or call of the result |
| AsmExtractor.MembershipInBatch | Extracteurs/ASMExtractor.py:649-650 | every method's membership row, with the packages looked up, is in the batch |
| AsmExtractor.IgnoreNodesSpec | Extracteurs/ASMExtractor.py:674-678 | INSERT OR IGNORE of node rows keeps stored nodes, stores every row with a package and adds only such rows |
| AsmExtractor.IgnoreEdgesSpec | Extracteurs/ASMExtractor.py:680-685 | an edge is stored exactly when some row of the batch has both packages set; rows with a missing package are dropped |
| AsmExtractor.CollectMethodRows | Extracteurs/ASMExtractor.py:644-662 | the method loop yields the node rows and edge rows of the class's methods, in order |
| AsmExtractor.CollectBatches | Extracteurs/ASMExtractor.py:616-672 | the class loop yields the whole node batch and edge batch |
| AsmExtractor.AssignMethodPackages | Extracteurs/ASMExtractor.py:780-784 | an unresolved method FQN of a project class gets the project package; resolved ones keep theirs |
| AsmExtractor.AssignProjectPackages | Extracteurs/ASMExtractor.py:762-784 | every unresolved class or method FQN of the result gets the project package, and a project symbol is recorded for each unresolved class with a URI |
| AsmExtractor.AssignStep | Extracteurs/ASMExtractor.py:762-784 | one class of the assignment loop keeps the loop's invariant |
| AsmExtractor.AssignClassPackage | Extracteurs/ASMExtractor.py:764-778 | an unresolved class gets the project package and, when its URI is found, a project symbol |
| AsmExtractor.EnrichAll | Extracteurs/ASMExtractor.py:795-825 | enrichment keeps one record per class |
| AsmExtractor.EnrichedPackages | Extracteurs/ASMExtractor.py:795-825 | every class and method gets the resolved package or the project package; parents and callees outside the project get their resolved package or none |
| AsmExtractor.EnrichProject | Extracteurs/ASMExtractor.py:753-825 | the enrichment loop yields the enriched classes, and every project symbol is an unresolved class of the result |
| AsmExtractor.Extractor.constructor | Extracteurs/ASMExtractor.py:37-49 | a new extractor has empty symbol, hash, node and edge tables |
| AsmExtractor.Extractor.StoreSymbols | Extracteurs/ASMExtractor.py:280-307 | the symbol table becomes the stored-symbols result, the package's hash is set, nothing else changes |
| AsmExtractor.Extractor.BuildSymbolIndex | Extracteurs/ASMExtractor.py:114-177 | a missing repository directory raises and changes nothing; otherwise the gated fold over the packages, then the local URI fix when a project root and local packages are given |
| AsmExtractor.Extractor.FixLocalPackageUris | Extracteurs/ASMExtractor.py:309-370 | the symbol table becomes the local fix's result; hashes, nodes and edges are untouched |
| AsmExtractor.Extractor.FixPackageRows | Extracteurs/ASMExtractor.py:345-366 | the update loop over one package's rows yields the fixed URIs and nothing else changes |
| AsmExtractor.Extractor.StoreExtractionResults | Extracteurs/ASMExtractor.py:566-687 | nodes and edges gain exactly the INSERT OR IGNORE results of the node and edge batches |
| AsmExtractor.Extractor.ExtractProject | Extracteurs/ASMExtractor.py:689-830 | a failed analysis raises; otherwise the enriched classes, and the symbol index changes only by project-package rows for unresolved project classes, while every unresolved project class whose source uri was found (and whose FQN is no method's) is stored with that uri under the project package |
| AsmExtractor.ProjectSymbolsStored | Extracteurs/ASMExtractor.py:950-965 | storing the project symbols adds only project classes, keeps resolved rows, and tags every changed row with the project package |
| AsmExtractor.ProjectClassesStored | Extracteurs/ASMExtractor.py:762-788 | every project class that did not resolve, is no method's FQN and has a truthy project uri ends up stored with that uri under the project package |
| AsmExtractor.PutAllUniform | Extracteurs/ASMExtractor.py:955-965 | when every symbol written for an FQN carries the same uri, the FQN is stored with that uri and the package, whichever write came last |
| AsmExtractor.StoreProjectSymbols | Extracteurs/ASMExtractor.py:762-788 | the project symbols found by step 3, once stored, give a table with only project-class additions, unresolved rows changed to the project package, and every found project class present with its uri |
| AsmExtractor.ClassPartSpec | Extracteurs/ASMExtractor.py:385-390 | the class part is the text itself or its prefix before the last '.', and it is cut exactly when the last segment is non-empty and starts with a lower-case letter |
| AsmExtractor.PutAllOwned | Extracteurs/ASMExtractor.py:294-300 | every symbol written ends up in the table, owned by the package |
| AsmExtractor.PutAllLastUri | Extracteurs/ASMExtractor.py:294-300 | a symbol not written again later keeps its own uri: the last write of an FQN wins |
| AsmExtractor.PutAllKeys | Extracteurs/ASMExtractor.py:294-300 | every row afterwards was there before or comes from a symbol written |
| AsmExtractor.PutAllKeeps | Extracteurs/ASMExtractor.py:294-300 | a row no symbol names is left exactly as it was |
| QueryEngine.CollectionGet | Extracteurs/call_graph_service.py:119-123 | the store's `get` answers at most `limit` matching records, and all of them when no more match |
| QueryEngine.CallerSymbol | Extracteurs/call_graph_service.py:146-149 | a caller symbol is used only when the record holds a non-empty string under `callerSymbol` |
| QueryEngine.Paginate | Extracteurs/call_graph_service.py:140-180 | a page is `filtered[offset:offset+limit]` with `total` the filtered count, `has_more` exactly when `offset+limit < total`, and `next_offset` set, to `offset+limit`, exactly then |
| QueryEngine.WalkCoversAll | Extracteurs/call_graph_service.py:140-180 | following `next_offset` from 0 visits every filtered record once, in order |
| QueryEngine.WhereFor | Extracteurs/call_graph_service.py:103-115 | the filter always tests `calleeSymbol`, and adds `usageType` and `module` exactly when they are given |
| QueryEngine.DropGenerated | Extracteurs/call_graph_service.py:126-137 | the generated-code filter keeps exactly the records whose `callerUri` holds none of the build, src-gen or platform markers, in order |
| QueryEngine.RawUsagesSound | Extracteurs/call_graph_service.py:182-252 | every raw usage returned is a stored record matching the filter, and not generated code when generated code is excluded |
| QueryEngine.RawUsagesWindow | Extracteurs/call_graph_service.py:220-223 | the total never exceeds the fetch window `min(limit*3 or limit+offset, 10000)`; without the generated-code filter and below the cap the page is the plain slice of the matches |
| QueryEngine.ExcludingPagesEndAtWindow | Extracteurs/call_graph_service.py:118-141 | with generated code excluded the window ignores the offset, so an offset at or past `limit*3` always gets an empty last page |
| QueryEngine.ShouldRecurse | Extracteurs/call_graph_service.py:95-100 | recursion is `current < max_depth` when depth is -1, `current < depth` when depth is positive, and off otherwise |
| QueryEngine.MaxDepthPage | Extracteurs/call_graph_service.py:84-93 | at the depth limit the answer is an empty page with total 0, no next page and an error |
| QueryEngine.FindUsages | Extracteurs/call_graph_service.py:47-180 | at the depth limit the error page and no visit; otherwise the raw-usage page, each caller expanded at most once (the expanded symbols are exactly those newly visited, without repeats), and every child page fetched at offset 0 with `max_children_per_level` and the next depth |
| QueryEngine.ExpandAll | Extracteurs/call_graph_service.py:144-171 | the page's records are kept in order; expansion visits each new caller symbol once and only when recursion is on |
| QueryEngine.Visit | Extracteurs/call_graph_service.py:145-171 | one record is expanded only when its caller symbol is unvisited, and then it records the child page with `_children_total`, `_children_displayed` and `_children_truncated` |
| QueryEngine.FindCallers | Extracteurs/call_graph_service.py:276-297 | callers are the raw `java_method_call` usages of the symbol, never expanded |
| QueryEngine.AnalyzeLevel | Extracteurs/call_graph_service.py:361-395 | a level is absent exactly beyond the depth or for a visited symbol; otherwise it carries the symbol and depth, and every symbol in its tree is newly visited exactly once |
| QueryEngine.AnalyzeCallers | Extracteurs/call_graph_service.py:387-393 | recursion goes only through callers among the first 10 results, skipping self-callers, one depth further |
| QueryEngine.ImpactAnalysis | Extracteurs/call_graph_service.py:339-411 | the root counts its direct callers and total usages; only the root's callers are paginated, with `total` the unsliced count and the usual `has_more`/`next_offset` law |
| QueryEngine.GetDefinition | Extracteurs/call_graph_service.py:254-274 | at most 100 `java_declaration` records of the symbol, and all of them when there are no more |
| QueryEngine.FindCalleesNeverMore | Extracteurs/call_graph_service.py:299-337 | only `limit+offset` records are fetched, so the total never exceeds it, `has_more` is always false and `next_offset` always empty |
| QueryEngine.SortByLine | Extracteurs/call_graph_service.py:444 | the sort by `callerLine` is ordered and a permutation of its input |
| QueryEngine.InFile | Extracteurs/call_graph_service.py:437-441 | exactly the records whose `callerUri` contains the path are kept |
| QueryEngine.SearchByFileSpec | Extracteurs/call_graph_service.py:413-457 | the total is the number of matching records among the first 10000, the page is sorted by line and holds only matching stored records |
| StorageWriter.DropNulls | Extracteurs/StorageWriter.py:79-107 | a stored metadata map keeps exactly the keys whose value is not None, with their values |
| StorageWriter.Prepare | Extracteurs/StorageWriter.py:79-107 | a prepared entry has no None value, carries the four tracking fields (model and version as configured, both timestamps the scan time), and otherwise only the entry's own non-None metadata, all of it |
| StorageWriter.BatchesSpec | Extracteurs/StorageWriter.py:113-135 | the entries go to `add` in non-empty slices of at most 500 that together cover them all |
| StorageWriter.OutdatedClauses | Extracteurs/StorageWriter.py:217-240 | one clause per requested check: strategy version differs, then embedding model is "none" |
| StorageWriter.Outdated | Extracteurs/StorageWriter.py:217-251 | an entry is outdated exactly when it satisfies one of the clauses (a single clause alone, two joined by `$or`) |
| StorageWriter.MaxToCopy | Extracteurs/StorageWriter.py:333-350 | the copy count is `min(total, limit)` with a limit and `total` without one |
| StorageWriter.ForAddSpec | Extracteurs/StorageWriter.py:394-416 | the copied rows keep id, document and metadata; embeddings are passed on only when at least one row of the page has one |
| StorageWriter.PagesUnfold | Extracteurs/StorageWriter.py:353-370 | before `max_to_copy` is reached, each round fetches a non-empty page of `min(batch, remaining)` rows at the current offset and continues just past it |
| StorageWriter.PagesBounded | Extracteurs/StorageWriter.py:353-370 | every fetched page holds at least one and at most `batch` rows |
| StorageWriter.PagesFlatten | Extracteurs/StorageWriter.py:353-427 | laid end to end the fetched pages are exactly the cached rows from the offset up to `max_to_copy` |
| StorageWriter.CopyStep | Extracteurs/StorageWriter.py:353-427 | adding the fetched page and advancing the offset by its length leaves the same total still to be added |
| StorageWriter.AddedCopied | Extracteurs/StorageWriter.py:394-416 | pages lying end to end in the cache are added as a copy of those rows: same length, same id, document and metadata, and an embedding only where the cached row had it |
| StorageWriter.CopyPagesSpec | Extracteurs/StorageWriter.py:353-427 | the copy loop copies exactly `max_to_copy` rows, each one the cache row at its position |
| StorageWriter.Writer.constructor | Extracteurs/StorageWriter.py:33-68 | model name and strategy version are the real ones with embeddings and "none" without; existing rows are kept |
| StorageWriter.Writer.Prepared | Extracteurs/StorageWriter.py:79-107 | one prepared entry per input, in order, with the writer's tracking values and the fast-mode vector `[0.0]` when embeddings are off |
| StorageWriter.Writer.AddEntries | Extracteurs/StorageWriter.py:70-135 | the store gains exactly the prepared entries, in order, in slices of at most 500; an empty list changes nothing |
| StorageWriter.Writer.Reset | Extracteurs/StorageWriter.py:301-309 | reset empties the collection |
| StorageWriter.Writer.GetOutdatedEntries | Extracteurs/StorageWriter.py:206-251 | nothing when no check is asked or the filter raises; otherwise exactly the stored entries satisfying a requested clause |
| StorageWriter.Writer.CopyFromCache | Extracteurs/StorageWriter.py:311-427 | an unopenable cache copies 0 rows; otherwise exactly `max_to_copy` rows are added, page by page in cache order |
| StorageWriter.Writer.PrepareAll | Extracteurs/StorageWriter.py:90-111 | the preparing loop yields one stored entry per input, in order, each as Prepared states |
| StorageWriter.Writer.AddInBatches | Extracteurs/StorageWriter.py:113-135 | the store gains exactly the prepared entries, in order, with one `add` call per slice of at most 500 |
| ExtractionManager.Normalize | Extracteurs/ExtractionManager.py:122-126 | normalizing a path keeps its length and leaves no backslash |
| ExtractionManager.RouteFrom | Extracteurs/ExtractionManager.py:122-130 | an entry goes to the first repo whose normalized path prefixes its source file, and nowhere when none does |
| ExtractionManager.RoutedTo | Extracteurs/ExtractionManager.py:122-140 | the entries routed to a repo are entries whose route is that repo, in order |
| ExtractionManager.AcceptSlot | Extracteurs/ExtractionManager.py:131-139 | accepting an entry below the limit keeps the slot invariant, flushing when the batch reaches 500 |
| ExtractionManager.RejectSlot | Extracteurs/ExtractionManager.py:131-133 | an entry refused at or past the limit keeps the slot invariant |
| ExtractionManager.Keep | Extracteurs/ExtractionManager.py:131-139 | at or past the limit nothing changes; below it the entry is added, and a batch reaching 500 is flushed and counted |
| ExtractionManager.Router.constructor | Extracteurs/ExtractionManager.py:105-110 | each repo starts with an empty batch, nothing flushed and a zero count |
| ExtractionManager.Router.RouteAll | Extracteurs/ExtractionManager.py:115-157 | no flushed batch is empty or exceeds 500, each count is the number of entries flushed, the flushed entries of a repo are a prefix of those routed to it (all of them without a limit), and with a limit a repo stops below `limit + 500` |
| ExtractionManager.Router.RouteOne | Extracteurs/ExtractionManager.py:122-139 | routing one entry keeps the routing invariant |
| ExtractionManager.Router.FlushRemaining | Extracteurs/ExtractionManager.py:152-157 | the `finally` flush leaves every repo's flushed entries and count complete |
| ExtractionManager.FlushSlot | Extracteurs/ExtractionManager.py:152-157 | flushing a non-empty remainder counts it and completes the slot |
| ExtractionManager.TargetFor | Extracteurs/ExtractionManager.py:88-99 | 'project' goes to the project store and every other repo to a freshly reset cache for its name and version |
| ExtractionManager.ExtractAllRepos | Extracteurs/ExtractionManager.py:70-227 | Java and XML entries are routed alike: batches of at most 500, stats equal to the entries handed to each writer, all routed entries without a limit, and counts bounded with one |
| ExtractionManager.Prefixes | Extracteurs/ExtractionManager.py:100-102 | one normalized path per repo, in order |
| ExtractionManager.PlanFrom | Extracteurs/ExtractionManager.py:409-432 | 'project' is always extracted last; every Axelor repo is either cached (only without reset and with a cache) or extracted |
| ExtractionManager.ResetExtractsAll | Extracteurs/ExtractionManager.py:414-432 | with reset every Axelor repo is re-extracted, in the listed order, with the platform or suite version its name calls for, and the project comes after them |
| ExtractionManager.Router.RouteEntries | Extracteurs/ExtractionManager.py:118-140 | routing the entries one by one keeps the routing invariant for every prefix of the stream |
| ExtractionManager.FlushStep | Extracteurs/ExtractionManager.py:152-157 | flushing one repository's non-empty batch completes its flushed entries and count, and an empty batch needs nothing |
| XmlTree.LocalTag | Extracteurs/AxelorXmlExtractor.py:342 | the local tag holds no closing brace, and a tag without a namespace is its own local tag |
| XmlTree.Iter | Extracteurs/AxelorXmlExtractor.py:341 | the document-order iteration starts at the element itself, with the given ancestors |
| XmlTree.IterParents | Extracteurs/AxelorXmlExtractor.py:369 | every element met after the first is a child of its recorded parent, which is what the parent map records |
| XmlTree.RootIterParents | Extracteurs/AxelorXmlExtractor.py:369 | from the root, every later element has a recorded parent that holds it among its children |
| XmlTree.FirstFrom | Extracteurs/AxelorXmlExtractor.py:617-626 | the index found is the first from `k` satisfying the test, and -1 exactly when none does |
| XmlTree.FirstFromShift | Extracteurs/AxelorXmlExtractor.py:617-626 | ancestors failing the test in front shift the first match by their number and change nothing else |
| XmlTree.ParentView | Extracteurs/AxelorXmlExtractor.py:612-627 | a view is found exactly when some ancestor is a view tag; then the nearest one gives the tag, the name and the id falling back to the name |
| XmlTree.ParentActionView | Extracteurs/AxelorXmlExtractor.py:629-643 | an action view is found exactly when some ancestor is one; the identifier prefers its name over its id |
| XmlTree.FindParentView | Extracteurs/AxelorXmlExtractor.py:612-627 | the loop up the parent chain returns the nearest view, as ParentView states |
| XmlTree.FindParentActionView | Extracteurs/AxelorXmlExtractor.py:629-643 | the loop up the parent chain returns the nearest action view, as ParentActionView states |
| XmlTree.PanelViewModel | Extracteurs/AxelorXmlExtractor.py:735-750 | the grid view is tried before the form view; the global cache wins over the local one; nothing is found when the view name is empty or in neither cache |
| XmlTree.StopResultSpec | Extracteurs/AxelorXmlExtractor.py:723-773 | what the nearest stopping ancestor decides: a panel-related target, a view of the panel, the editor's parent field, or the view's model, each with its source label |
| XmlTree.FieldModel | Extracteurs/AxelorXmlExtractor.py:694-777 | the field's own target, then its target-name, win; with no stopping ancestor the field is unresolved |
| XmlTree.FieldModelSkipsTransparent | Extracteurs/AxelorXmlExtractor.py:719-775 | ancestors that are neither panel-related, editor nor view do not change the resolution |
| XmlTree.FieldModelIgnoresAbove | Extracteurs/AxelorXmlExtractor.py:719-775 | nothing above the first stopping ancestor and its parent affects the resolution |
| XmlTree.ResolveFieldModel | Extracteurs/AxelorXmlExtractor.py:694-777 | the loop up the parent chain computes the resolution FieldModel states |
| XmlTree.TailModel | Extracteurs/AxelorXmlExtractor.py:645-692 | the field's own target and target-name win; any other non-empty tail comes from a panel-related element on the chain |
| XmlTree.ResolveTailModel | Extracteurs/AxelorXmlExtractor.py:645-692 | the loop from the field itself up the chain computes the tail TailModel states |
| XmlTree.ViewModelMapKeys | Extracteurs/AxelorXmlExtractor.py:330-351 | a view name is mapped exactly when some view element with a name and a model carries it |
| XmlTree.ViewModelMapLast | Extracteurs/AxelorXmlExtractor.py:347-349 | a name is mapped to the model of its last view element, later ones overwriting earlier ones |
| XmlTree.BuildViewModelMap | Extracteurs/AxelorXmlExtractor.py:330-351 | the loop over the iteration builds the map ViewModelMap states |
| XmlTree.LocalTagIsSplit | Extracteurs/AxelorXmlExtractor.py:342 | the local tag is the last `}`-separated piece of a namespaced tag, and the whole tag otherwise |
| XmlTree.IsViewSpec | Extracteurs/AxelorXmlExtractor.py:339-344 | an element is a view exactly when its local tag is one of the eight view tags |
| XmlTree.AncestorModelSkips | Extracteurs/AxelorXmlExtractor.py:719-775 | ancestors in front that do not stop the search leave the ancestor-derived model unchanged |
| XmlTree.ResolveAtStop | Extracteurs/AxelorXmlExtractor.py:723-773 | the branch taken at the stopping ancestor gives the decision StopResult states |
| XmlReferences.IndexIn | Extracteurs/AxelorXmlExtractor.py:323 | the index found is the first occurrence, and -1 exactly when the value is absent |
| XmlReferences.ModuleAfterModules | Extracteurs/AxelorXmlExtractor.py:317-328 | the module is the path component right after the first `modules` |
| XmlReferences.ModuleUnknown | Extracteurs/AxelorXmlExtractor.py:317-328 | without a `modules` component, or with one only in last place, the module is `unknown` |
| XmlReferences.ExtendTargets | Extracteurs/AxelorXmlExtractor.py:464-467 | only non-empty extend targets are collected |
| XmlReferences.OperationsOf | Extracteurs/AxelorXmlExtractor.py:470-473 | only insert, replace, remove and attribute children count as operations |
| XmlReferences.ExtendOps | Extracteurs/AxelorXmlExtractor.py:455-473 | every operation collected over the extends is one of the four |
| XmlReferences.DefinitionContext | Extracteurs/AxelorXmlExtractor.py:447-479 | the context carries the id falling back to the name, the extension flag and the model; only an extension adds extend keys |
| XmlReferences.DefinitionRefs | Extracteurs/AxelorXmlExtractor.py:427-489 | a view or action element with a name yields exactly one definition or extension reference, and any other element none |
| XmlReferences.ChildActions | Extracteurs/AxelorXmlExtractor.py:504-510 | the child actions are non-empty names, at most one per child |
| XmlReferences.GroupPairsShape | Extracteurs/AxelorXmlExtractor.py:526-555 | each child action gives a contains reference then a contained-by reference, at its position |
| XmlReferences.GroupRefsShape | Extracteurs/AxelorXmlExtractor.py:491-555 | a named action group yields its definition followed by two references per child action, in order |
| XmlReferences.FirstCall | Extracteurs/AxelorXmlExtractor.py:570-576 | the call found is the first `call` element below the action method, and none when there is none |
| XmlReferences.MethodRefs | Extracteurs/AxelorXmlExtractor.py:557-611 | a named action method with a call yields its definition, then a Java method reference when the method is named |
| XmlReferences.TriggerId | Extracteurs/AxelorXmlExtractor.py:796-803 | the trigger identifier is view:field:event, field:event or tag:event, as the parent view and the field name allow |
| XmlReferences.InlineGroupId | Extracteurs/AxelorXmlExtractor.py:813-819 | every inline group identifier starts with `inline-group-` |
| XmlReferences.JavaCall | Extracteurs/AxelorXmlExtractor.py:879-883 | a direct Java call splits at its one colon into class and method, which rebuild the action |
| XmlReferences.PieceRefs | Extracteurs/AxelorXmlExtractor.py:842-897 | an empty piece yields nothing; any other yields the contains and contained-by pair, plus a Java method reference for a direct call |
| XmlReferences.InlineActions | Extracteurs/AxelorXmlExtractor.py:808 | there is one stripped action per comma-separated piece |
| XmlReferences.EventRefsFor | Extracteurs/AxelorXmlExtractor.py:784-956 | no event value yields nothing; a single plain action yields the trigger-calls and called-by pair; a list yields an inline group first |
| XmlReferences.ViewAttrRefs | Extracteurs/AxelorXmlExtractor.py:972-1020 | a view attribute yields the uses-view pair exactly when it is set; the element is named by its name or by tag@parent-view |
| XmlReferences.ViewElementRefs | Extracteurs/AxelorXmlExtractor.py:1023-1058 | a `view` element with a type and a name yields the pair linking it to its action view |
| XmlReferences.Head | Extracteurs/AxelorXmlExtractor.py:1086-1093 | the head of a field name holds no dot, and an undotted name is its own head |
| XmlReferences.HeadRefs | Extracteurs/AxelorXmlExtractor.py:1096-1159 | the head pair is emitted exactly when the field's model resolves, linking the model and the head |
| XmlReferences.TailRefs | Extracteurs/AxelorXmlExtractor.py:1162-1219 | the tail pair is emitted exactly when the name is dotted and the tail model resolves, naming the last piece |
| XmlReferences.FieldRefs | Extracteurs/AxelorXmlExtractor.py:1062-1221 | only field-like tags with a field name yield references: the head pair then the tail pair |
| XmlReferences.RunPass | Extracteurs/AxelorXmlExtractor.py:434 | one pass over the iteration appends each element's references in document order |
| XmlReferences.EntryFor | Extracteurs/AxelorXmlExtractor.py:392-419 | the metadata carries the value, the type, the `xml` source, the context as JSON or "", and the routing key only when asked |
| XmlReferences.EntriesDifferBySourceFile | Extracteurs/extract_xml_graph.py:298-320 | the sequential extractor's entries are the threaded ones without the `source_file` key |
| XmlReferences.ConvertToEntries | Extracteurs/AxelorXmlExtractor.py:392-419 | one entry per reference, in order |
| XmlReferences.ExtractFromFile | Extracteurs/AxelorXmlExtractor.py:353-390 | a file that does not parse yields no entries; otherwise one entry per reference of the passes in order |
| XmlReferences.RunPasses | Extracteurs/AxelorXmlExtractor.py:374-382 | the eight extraction passes run in their fixed order over the whole tree, their references appended pass after pass |
| SequentialExtract.Repos | Extracteurs/extract_xml_graph.py:132-150 | repositories given to the constructor win, even an empty list; otherwise the configuration's list; `["modules"]` when the file is missing, unreadable or lacks the key |
| SequentialExtract.ExtractAll | Extracteurs/extract_xml_graph.py:177-221 | the entries yielded are a prefix of all files' entries in order: all of them without a limit, exactly `min(limit, total)` with one; no file is opened once the limit is reached |
| SequentialExtract.FlattenPrefix | Extracteurs/extract_java_graph.py:146-190 | the entries of the first k files are a prefix of the entries of all files |
| UsageCollector.DomainPatterns | Extracteurs/JavaASTService/src/main/java/UsageCollector.java:56-66 | the patterns given are kept unless absent or empty, when the single default `com.axelor.*` is used |
| UsageCollector.AnyPatternFrom | Extracteurs/JavaASTService/src/main/java/UsageCollector.java:75-88 | true exactly when some pattern from position k on matches |
| UsageCollector.MatchesDomain | Extracteurs/JavaASTService/src/main/java/UsageCollector.java:72-90 | a name matches exactly when it is present and some pattern matches it: a prefix for a `.*` pattern, a substring otherwise |
| UsageCollector.DefaultPatternIsPrefix | Extracteurs/JavaASTService/src/main/java/UsageCollector.java:63-65 | the default pattern accepts exactly the names starting `com.axelor`, so also `com.axelorx.Y` |
| UsageCollector.EmptyNameMatchesAll | Extracteurs/JavaASTService/src/main/java/UsageCollector.java:76-86 | if the empty name matches, every name matches |
| UsageCollector.TopSegments | Extracteurs/JavaASTService/src/main/java/UsageCollector.java:139-169 | the split always has a segment, and no segment is longer than the input |
| UsageCollector.JoinTopSegments | Extracteurs/JavaASTService/src/main/java/UsageCollector.java:139-169 | rejoining the top-level segments with commas gives the input back |
| UsageCollector.NoCommaOneSegment | Extracteurs/JavaASTService/src/main/java/UsageCollector.java:139-169 | without a comma the input is a single segment |
| UsageCollector.KeepNonEmpty | Extracteurs/JavaASTService/src/main/java/UsageCollector.java:153-166 | at most one argument per segment, each already trimmed |
| UsageCollector.KeepNonBlank | Extracteurs/JavaASTService/src/main/java/UsageCollector.java:153-166 | the corrected split keeps only non-empty trimmed arguments |
| UsageCollector.DropEmpty | Extracteurs/JavaASTService/src/main/java/UsageCollector.java:153-166 | removes exactly the empty strings |
| UsageCollector.KeepNonBlankDropsEmpty | Extracteurs/JavaASTService/src/main/java/UsageCollector.java:153-166 | the corrected split is the as-written split without its empty strings |
| UsageCollector.KeepBound | Extracteurs/JavaASTService/src/main/java/UsageCollector.java:139-169 | an argument is never longer than its segment |
| UsageCollector.SplitAsWritten | Extracteurs/JavaASTService/src/main/java/UsageCollector.java:139-169 | every argument of the as-written split is trimmed and no longer than the input |
| UsageCollector.GenericTypes | Extracteurs/JavaASTService/src/main/java/UsageCollector.java:139-169 | the corrected split holds only non-empty trimmed arguments, and is the as-written one without blanks |
| UsageCollector.OneArgument | Extracteurs/JavaASTService/src/main/java/UsageCollector.java:139-169 | without a comma the arguments are the trimmed content, or none when it is blank |
| UsageCollector.PlainExtends | Extracteurs/JavaASTService/src/main/java/UsageCollector.java:143-160 | text without brackets or commas extends the current segment and keeps the depth |
| UsageCollector.BlankArgumentKept | Extracteurs/JavaASTService/src/main/java/UsageCollector.java:153-160 | on `A, ,B` the as-written split yields an empty argument between A and B |
| UsageCollector.KeepBlankMiddle | Extracteurs/JavaASTService/src/main/java/UsageCollector.java:153-160 | a blank middle segment is kept as an empty argument |
| UsageCollector.BlankSegments | Extracteurs/JavaASTService/src/main/java/UsageCollector.java:139-169 | three plain pieces joined by commas are three segments |
| UsageCollector.CommaThenPlain | Extracteurs/JavaASTService/src/main/java/UsageCollector.java:152-157 | a top-level comma closes the current segment and opens a new one |
| UsageCollector.GenericTypesNoBlank | Extracteurs/JavaASTService/src/main/java/UsageCollector.java:139-169 | the corrected split never yields the empty argument |
| UsageCollector.SplitStep | Extracteurs/JavaASTService/src/main/java/UsageCollector.java:143-160 | one character updates the depth and either closes the segment (comma at depth 0) or extends it |
| UsageCollector.KeepNonEmptySnoc | Extracteurs/JavaASTService/src/main/java/UsageCollector.java:153-166 | a closed segment adds its trimmed text when non-empty |
| UsageCollector.SplitGenericTypes | Extracteurs/JavaASTService/src/main/java/UsageCollector.java:139-169 | the loop over the characters computes the as-written split |
| UsageCollector.BlankArgumentHarmless | Extracteurs/JavaASTService/src/main/java/UsageCollector.java:99-133 | the blank argument never changes whether a type or its arguments match |
| UsageCollector.PlainTypeMatches | Extracteurs/JavaASTService/src/main/java/UsageCollector.java:99-107 | a type without generics matches exactly when its name matches |
| UsageCollector.FirstCharAt | Extracteurs/JavaASTService/src/main/java/UsageCollector.java:115 | the first '<' is found where it first occurs |
| UsageCollector.LastCharAt | Extracteurs/JavaASTService/src/main/java/UsageCollector.java:116 | the last '>' is found where it last occurs |
| UsageCollector.ArgumentMatchLifts | Extracteurs/JavaASTService/src/main/java/UsageCollector.java:99-133 | `Outer<arg>` matches when its single argument matches |
| UsageCollector.PathToUri | Extracteurs/JavaASTService/src/main/java/UsageCollector.java:914-936 | there is a URI exactly when there is a path |
| UsageCollector.PathToUriShape | Extracteurs/JavaASTService/src/main/java/UsageCollector.java:914-936 | the URI starts `file:///`, ends with the path with forward slashes and holds no backslash; which prefix is added depends on how the path starts |
| UsageCollector.PathToUriIdempotent | Extracteurs/JavaASTService/src/main/java/UsageCollector.java:914-936 | converting a URI again changes nothing |
| UsageCollector.PathToUriLine | Extracteurs/JavaASTService/src/main/java/UsageCollector.java:941-945 | there is a URI with a line exactly when there is a path |
| UsageCollector.UriLineRecoverable | Extracteurs/JavaASTService/src/main/java/UsageCollector.java:941-945 | the line number is what follows the last colon |
| UsageCollector.NumberHasNoColon | Extracteurs/JavaASTService/src/main/java/UsageCollector.java:944 | a printed line number holds no colon |
| UsageCollector.ExtractMethodName | Extracteurs/JavaASTService/src/main/java/UsageCollector.java:952-962 | there is a simple name exactly when there is a name |
| UsageCollector.SimpleNameShape | Extracteurs/JavaASTService/src/main/java/UsageCollector.java:952-962 | the simple name holds neither '<' nor '.', and ends the name without its generics, after a dot |
| UsageCollector.SimpleNameOfQualified | Extracteurs/JavaASTService/src/main/java/UsageCollector.java:952-962 | the simple name of `q.name<args>` is `name` |
| UsageCollector.KindTables | Extracteurs/JavaASTService/src/main/java/UsageCollector.java:967-1015 | a name with `<init>` is a constructor on both sides; only the callee can be an interface (implements); which usage types give `unknown` |
| UsageCollector.Present | Extracteurs/JavaASTService/src/main/java/UsageCollector.java:1017-1033 | keeps only the present parts |
| UsageCollector.SourceFqn | Extracteurs/JavaASTService/src/main/java/UsageCollector.java:1017-1033 | `UNKNOWN` without a package; otherwise the package, then class and method when set |
| UsageCollector.SourceFqnIsJoin | Extracteurs/JavaASTService/src/main/java/UsageCollector.java:1017-1033 | the source name is the present scope names joined with dots |
| UsageCollector.ClassFqn | Extracteurs/JavaASTService/src/main/java/UsageCollector.java:1035-1040 | package.class, or `UNKNOWN` when either is missing |
| UsageCollector.MethodFqn | Extracteurs/JavaASTService/src/main/java/UsageCollector.java:1042-1047 | package.class.method, or `UNKNOWN` when any is missing |
| UsageCollector.ConstructorFqn | Extracteurs/JavaASTService/src/main/java/UsageCollector.java:1049-1054 | package.class.<init>, or `UNKNOWN` when either is missing |
| UsageCollector.FqnNesting | Extracteurs/JavaASTService/src/main/java/UsageCollector.java:1017-1054 | the four scope names agree: the method name extends the class name, the constructor is the method `<init>` |
| UsageCollector.SimpleNamesOfScope | Extracteurs/JavaASTService/src/main/java/UsageCollector.java:952-962 | the simple names of the method and class names are the method and the class |
| UsageCollector.ConstructorSimpleNameEmpty | Extracteurs/JavaASTService/src/main/java/UsageCollector.java:952-962 | the simple name of a constructor's name is empty, since it is cut at its '<' |
| UsageCollector.CalleeLocation | Extracteurs/JavaASTService/src/main/java/UsageCollector.java:808-862 | without a declaration only a declaration usage points at its own line; with one the callee location comes from the declaration's file and line |
| UsageCollector.CreatedUsagePlaces | Extracteurs/JavaASTService/src/main/java/UsageCollector.java:791-872 | a usage carries its type, module and line; its caller URI exists exactly with a file and ends with the line |
| UsageCollector.CreatedUsageNames | Extracteurs/JavaASTService/src/main/java/UsageCollector.java:791-872 | the symbols are simple names, the full names are passed through, and the kinds follow the tables |
| UsageCollector.Bidirectional | Extracteurs/JavaASTService/src/main/java/UsageCollector.java:878-909 | the inverse swaps every caller field with its callee field, keeps the module, and names a constructor `<init>` |
| UsageCollector.InverseOfInverse | Extracteurs/JavaASTService/src/main/java/UsageCollector.java:878-909 | inverting twice gives the usage back, outside the `<init>` renaming |
| UsageCollector.InverseOfCreated | Extracteurs/JavaASTService/src/main/java/UsageCollector.java:878-909 | the inverse of a created usage points back at the caller's file and line with the kinds exchanged |
| UsageCollector.ConstructorInverseNamedInit | Extracteurs/JavaASTService/src/main/java/UsageCollector.java:889-891 | the inverse of a constructor call is named `<init>` |
| UsageCollector.ImportKeyShape | Extracteurs/JavaASTService/src/main/java/UsageCollector.java:176 | an import's key is the last piece of its name, without a dot |
| UsageCollector.ImportsKeys | Extracteurs/JavaASTService/src/main/java/UsageCollector.java:171-181 | a key is mapped exactly when it was mapped before or some recorded import ends with it |
| UsageCollector.ImportLastWins | Extracteurs/JavaASTService/src/main/java/UsageCollector.java:171-181 | a key maps to the last recorded import with that key |
| UsageCollector.FallbackFqnCases | Extracteurs/JavaASTService/src/main/java/UsageCollector.java:464-473 | an unresolved parameter type takes its import, else an upper-case name is qualified by the package, else nothing |
| UsageCollector.SupertypeUsagesSnoc | Extracteurs/JavaASTService/src/main/java/UsageCollector.java:192-262 | each parent adds one usage, in order |
| UsageCollector.Collector.constructor | Extracteurs/JavaASTService/src/main/java/UsageCollector.java:56-66 | a fresh collector has the file's package, module and path, the patterns, no scope, no imports and no usages |
| UsageCollector.Collector.RecordImports | Extracteurs/JavaASTService/src/main/java/UsageCollector.java:171-181 | the imports are recorded into the import map and nothing else changes |
| UsageCollector.Collector.EnterClass | Extracteurs/JavaASTService/src/main/java/UsageCollector.java:184-186 | the class becomes the scope and the previous one is handed back |
| UsageCollector.Collector.LeaveClass | Extracteurs/JavaASTService/src/main/java/UsageCollector.java:266-268 | the previous class is restored |
| UsageCollector.Collector.EnterMethod | Extracteurs/JavaASTService/src/main/java/UsageCollector.java:271-273 | the method becomes the scope and the previous one is handed back |
| UsageCollector.Collector.LeaveMethod | Extracteurs/JavaASTService/src/main/java/UsageCollector.java:409-411 | the previous method is restored |
| UsageCollector.Collector.RecordSupertypes | Extracteurs/JavaASTService/src/main/java/UsageCollector.java:184-264 | a class in the domain gets one extends or implements usage per parent; any other class none |
| UsageCollector.Collector.RecordDeclaration | Extracteurs/JavaASTService/src/main/java/UsageCollector.java:277-282 | a method or constructor declaration adds exactly one declaration usage from the class |
| UsageCollector.Collector.RecordParameter | Extracteurs/JavaASTService/src/main/java/UsageCollector.java:325-360 | a matching resolved parameter type adds the usage and its inverse; otherwise nothing |
| UsageCollector.Collector.RecordParameterFallback | Extracteurs/JavaASTService/src/main/java/UsageCollector.java:361-396 | an unresolved parameter adds the usage and its inverse when its fallback name matches |
| UsageCollector.Collector.RecordReturnType | Extracteurs/JavaASTService/src/main/java/UsageCollector.java:284-322 | a matching return type adds one return-type usage |
| UsageCollector.Collector.RecordFieldInjection | Extracteurs/JavaASTService/src/main/java/UsageCollector.java:498-528 | an injected field in the domain adds one usage per variable; any other field none |
| UsageCollector.Collector.RecordMethodCall | Extracteurs/JavaASTService/src/main/java/UsageCollector.java:531-558 | a call to a domain type's method adds the usage and its inverse |
| UsageCollector.Collector.RecordConstructorCall | Extracteurs/JavaASTService/src/main/java/UsageCollector.java:561-621 | creating a domain object adds the constructor-call usage and its inverse |
| JavaAstService.ExtractModuleUnder | Extracteurs/JavaASTService/src/main/java/JavaASTService.java:457-474 | a file at any path, then `/modules/m/...`, belongs to module m, provided no earlier `/modules/` starts in the path before it (m free of separators) |
| JavaAstService.ExtractModuleShape | Extracteurs/JavaASTService/src/main/java/JavaASTService.java:457-474 | the module is `unknown` or a separator-free name framed by `/modules/` and `/` in the normalised path |
| JavaAstService.ExtractModuleUnknown | Extracteurs/JavaASTService/src/main/java/JavaASTService.java:462-465 | without `/modules/` in the normalised path the module is `unknown` |
| JavaAstService.DomainPatterns | Extracteurs/JavaASTService/src/main/java/JavaASTService.java:125-135 | the configured patterns are used when the configuration has a list; otherwise `com.axelor.*` |
| JavaAstService.SourceDirsShape | Extracteurs/JavaASTService/src/main/java/JavaASTService.java:189-207 | every directory found is a Java source directory inside the one searched, and a source directory is not searched further |
| JavaAstService.ChildSourceDirsShape | Extracteurs/JavaASTService/src/main/java/JavaASTService.java:199-206 | what the children yield lies strictly below the directory |
| JavaAstService.KeptPrefix | Extracteurs/JavaASTService/src/main/java/JavaASTService.java:201-204 | the children kept from a prefix are a prefix of the children kept |
| JavaAstService.SkipStep | Extracteurs/JavaASTService/src/main/java/JavaASTService.java:201-204 | skipping files and hidden directories loses nothing the search would find |
| JavaAstService.SkippedChildren | Extracteurs/JavaASTService/src/main/java/JavaASTService.java:199-206 | the search over only the visible subdirectories finds the same directories |
| JavaAstService.RepoKeyOrderFree | Extracteurs/JavaASTService/src/main/java/JavaASTService.java:213-226 | the cache key depends only on which repositories are listed, not on their order or repetition |
| JavaAstService.ParserCache.constructor | Extracteurs/JavaASTService/src/main/java/JavaASTService.java:90 | the cache starts empty |
| JavaAstService.ParserCache.GetOrCreate | Extracteurs/JavaASTService/src/main/java/JavaASTService.java:213-266 | a known repository set returns its cached parser and changes nothing; a new one creates a parser and caches it under its key |
| JavaAstService.ResultsFor | Extracteurs/JavaASTService/src/main/java/JavaASTService.java:298-346 | one result per requested file, in order, each naming the file's absolute path; a missing or unreadable file fails with one `IOException: ` message; a parsed file carries its package and the module of its path; a file that does not parse fails with exactly the parser's problem messages (as `extractFromFile` at lines 416-425 builds them) |
| JavaAstService.CountParsedBound | Extracteurs/JavaASTService/src/main/java/JavaASTService.java:317-321 | the files processed never exceed the files, and equal them exactly when every file parsed |
| JavaAstService.UnprobedFails | Extracteurs/JavaASTService/src/main/java/JavaASTService.java:304-312 | a missing, non-regular or unreadable file fails; a parsed file carries its module |
| JavaAstService.Service.constructor | Extracteurs/JavaASTService/src/main/java/JavaASTService.java:84-90 | the service holds the parser cache and the default parser |
| JavaAstService.Service.Analyze | Extracteurs/JavaASTService/src/main/java/JavaASTService.java:268-376 | a non-POST request gets 405; no file list gets 500; otherwise 200 with one result per file, the repositories' parser or the default one, and processed plus failed equal to the files; the parser cache is untouched without repositories or for a request other than POST or when the repositories' key is already cached, and otherwise gains exactly that key, mapped to the next parser number |
| JavaAstService.AnalyzeFiles | Extracteurs/JavaASTService/src/main/java/JavaASTService.java:298-346 | the loop gives one result per requested file in order; processed counts the parsed files and processed plus failed is the number of files |
| ClassAnalyzer.SelectedShape | Extracteurs/ASMAnalysisService/src/main/java/ClassAnalyzer.java:266-275 | a modifier is selected exactly when it is listed and its bit is set, in the listed order |
| ClassAnalyzer.ParseModifiersExact | Extracteurs/ASMAnalysisService/src/main/java/ClassAnalyzer.java:266-275 | a modifier is reported exactly when its access bit is set, each once, in the order public, private, protected, static, final, abstract |
| ClassAnalyzer.JavaLangNotLinked | Extracteurs/ASMAnalysisService/src/main/java/ClassAnalyzer.java:299-312 | `java.lang` types, and arrays of them, make no edges; an array of a primitive does |
| ClassAnalyzer.DomainClassLinked | Extracteurs/ASMAnalysisService/src/main/java/ClassAnalyzer.java:299-312 | a class outside `java.lang` with a non-primitive name makes an edge |
| ClassAnalyzer.NamesSnoc | Extracteurs/ASMAnalysisService/src/main/java/ClassAnalyzer.java:289-293 | each argument adds its class name to the signature's list |
| ClassAnalyzer.SignatureCommas | Extracteurs/ASMAnalysisService/src/main/java/ClassAnalyzer.java:285-297 | a signature of n arguments holds n-1 commas, when no name holds one |
| ClassAnalyzer.JoinCommas | Extracteurs/ASMAnalysisService/src/main/java/ClassAnalyzer.java:290-293 | joining n comma-free names with ", " puts n-1 commas in |
| ClassAnalyzer.ClassNodeFlags | Extracteurs/ASMAnalysisService/src/main/java/ClassAnalyzer.java:39-67 | the node type is interface, enum or class by the flags, interface first; no super class means no entity; a class with some super class whose own dotted name contains `.db.` and is not `com.axelor.db.Model` itself is an entity |
| ClassAnalyzer.InheritanceEdgesShape | Extracteurs/ASMAnalysisService/src/main/java/ClassAnalyzer.java:70-91 | an extends edge unless the super class is absent or `java/lang/Object`, then one implements edge per interface, in order, with dotted names |
| ClassAnalyzer.ArgumentEdgesShape | Extracteurs/ASMAnalysisService/src/main/java/ClassAnalyzer.java:141-165 | one argument edge per object or array argument that is not primitive, in order |
| ClassAnalyzer.Analyzer.constructor | Extracteurs/ASMAnalysisService/src/main/java/ClassAnalyzer.java:18-19 | a fresh analyzer has no nodes and no edges |
| ClassAnalyzer.Analyzer.Visit | Extracteurs/ASMAnalysisService/src/main/java/ClassAnalyzer.java:39-94 | the class's name, flags and modifiers are recorded, its node appended and its inheritance edges appended |
| ClassAnalyzer.Analyzer.AddInheritance | Extracteurs/ASMAnalysisService/src/main/java/ClassAnalyzer.java:70-91 | appends exactly the inheritance edges |
| ClassAnalyzer.Analyzer.AddImplements | Extracteurs/ASMAnalysisService/src/main/java/ClassAnalyzer.java:81-91 | appends one implements edge per interface |
| ClassAnalyzer.Analyzer.VisitField | Extracteurs/ASMAnalysisService/src/main/java/ClassAnalyzer.java:97-113 | a field of a linked object or array type adds one member-of edge to the class, any other field none |
| ClassAnalyzer.Analyzer.VisitMethod | Extracteurs/ASMAnalysisService/src/main/java/ClassAnalyzer.java:116-169 | a method adds its node, its return and argument edges and its member-of edge, and hands back a method visitor for it |
| ClassAnalyzer.DescriptorToSignature | Extracteurs/ASMAnalysisService/src/main/java/ClassAnalyzer.java:285-297 | the loop builds the parenthesised, comma-separated argument list |
| ClassAnalyzer.MethodAnalyzer.constructor | Extracteurs/ASMAnalysisService/src/main/java/ClassAnalyzer.java:180-203 | the method's node starts with no line, no override and no transaction, and its member-of edge is appended |
| ClassAnalyzer.MethodAnalyzer.VisitAnnotation | Extracteurs/ASMAnalysisService/src/main/java/ClassAnalyzer.java:205-222 | `@Override` sets the override flag and the three `@Transactional` descriptors set the transactional flag; nothing else changes |
| ClassAnalyzer.MethodAnalyzer.VisitLineNumber | Extracteurs/ASMAnalysisService/src/main/java/ClassAnalyzer.java:224-233 | the current line follows every line seen; the method's line is the first one |
| ClassAnalyzer.MethodAnalyzer.VisitMethodInsn | Extracteurs/ASMAnalysisService/src/main/java/ClassAnalyzer.java:235-257 | each call adds one call edge at the current line, kind `new` for a constructor called by invokespecial |
| ClassAnalyzer.Analyzer.SetHeader | Extracteurs/ASMAnalysisService/src/main/java/ClassAnalyzer.java:42-47 | the class name is the internal name in dotted form; the interface, enum and abstract flags and the modifiers are read off the access bits |
| ClassAnalyzer.Analyzer.AddReturnEdge | Extracteurs/ASMAnalysisService/src/main/java/ClassAnalyzer.java:127-138 | a non-primitive object or array return type adds one return member-of edge to the method and any other adds none |
| ClassAnalyzer.Analyzer.AddArgumentEdges | Extracteurs/ASMAnalysisService/src/main/java/ClassAnalyzer.java:141-165 | one argument member-of edge per non-primitive object or array argument, in argument order |
| AsmAnalysis.MatchesDomainFilter | Extracteurs/ASMAnalysisService/src/main/java/ASMAnalysisService.java:425-435 | the loop is true exactly when there are no domains, or the name starts with one of them |
| AsmAnalysis.DomainMatchExtends | Extracteurs/ASMAnalysisService/src/main/java/ASMAnalysisService.java:425-435 | a matching name still matches when extended; an empty domain matches every name |
| AsmAnalysis.PackageNamePrecedence | Extracteurs/ASMAnalysisService/src/main/java/ASMAnalysisService.java:164-241 | an explicit package name wins; otherwise the first package root's directory name; otherwise none |
| AsmAnalysis.ModePrecedence | Extracteurs/ASMAnalysisService/src/main/java/ASMAnalysisService.java:165-226 | package roots win over class directories, which win over class files; a request with none of them is refused |
| AsmAnalysis.RootsShape | Extracteurs/ASMAnalysisService/src/main/java/ASMAnalysisService.java:169-190 | each package root with a `classes` directory contributes it, and its `sources` directory maps it when present |
| AsmAnalysis.ValidClassFilesShape | Extracteurs/ASMAnalysisService/src/main/java/ASMAnalysisService.java:209-216 | only existing `.class` files given are kept, in order |
| AsmAnalysis.LimitedPrefix | Extracteurs/ASMAnalysisService/src/main/java/ASMAnalysisService.java:228-263 | a non-negative limit keeps the first `min(limit, n)` files; no limit keeps all; a negative limit fails only when there are more files than it |
| AsmAnalysis.EdgeStepKeeps | Extracteurs/ASMAnalysisService/src/main/java/ASMAnalysisService.java:348-411 | an edge never adds or removes a class or a method, nor renames one |
| AsmAnalysis.EdgesInto | Extracteurs/ASMAnalysisService/src/main/java/ASMAnalysisService.java:348-411 | folding the edges keeps the indexing, the classes and the methods |
| AsmAnalysis.ClassesOfShape | Extracteurs/ASMAnalysisService/src/main/java/ASMAnalysisService.java:286-310 | a name is a class exactly when a class, interface or enum node with it passes the domain filter; it starts with empty methods, fields and inheritance |
| AsmAnalysis.ClassesConsistent | Extracteurs/ASMAnalysisService/src/main/java/ASMAnalysisService.java:284-310 | the class records alone form a consistent grouping |
| AsmAnalysis.MethodStepConsistent | Extracteurs/ASMAnalysisService/src/main/java/ASMAnalysisService.java:313-345 | a method node joins the grouping exactly when its class prefix names a kept class; existing methods are untouched |
| AsmAnalysis.MethodsIntoConsistent | Extracteurs/ASMAnalysisService/src/main/java/ASMAnalysisService.java:313-345 | adding the method nodes keeps the grouping consistent and appends only |
| AsmAnalysis.MethodsIntoFresh | Extracteurs/ASMAnalysisService/src/main/java/ASMAnalysisService.java:335-337 | every method record starts with no return type, no arguments and no calls |
| AsmAnalysis.ClassEdgeStep | Extracteurs/ASMAnalysisService/src/main/java/ASMAnalysisService.java:351-409 | an inheritance edge from a class adds to its inheritance, a field edge to it adds to its fields |
| AsmAnalysis.ClassEdgesGrouped | Extracteurs/ASMAnalysisService/src/main/java/ASMAnalysisService.java:348-411 | a class's inheritance and fields are exactly its edges of those kinds, in edge order |
| AsmAnalysis.MethodEdgeStep | Extracteurs/ASMAnalysisService/src/main/java/ASMAnalysisService.java:364-397 | a call edge from a method adds a call, an argument edge adds an argument, a return edge replaces the return type |
| AsmAnalysis.MethodEdgesGrouped | Extracteurs/ASMAnalysisService/src/main/java/ASMAnalysisService.java:348-411 | a method's calls and arguments are exactly its edges of those kinds, and its return type the last return edge |
| AsmAnalysis.Grouping.constructor | Extracteurs/ASMAnalysisService/src/main/java/ASMAnalysisService.java:284-313 | the grouping starts with no classes and no methods |
| AsmAnalysis.Grouping.AddClasses | Extracteurs/ASMAnalysisService/src/main/java/ASMAnalysisService.java:286-310 | the loop over the nodes builds the class records ClassesOf states |
| AsmAnalysis.Grouping.AddMethods | Extracteurs/ASMAnalysisService/src/main/java/ASMAnalysisService.java:313-345 | the loop over the nodes attaches the methods as MethodsInto states |
| AsmAnalysis.Grouping.AddEdges | Extracteurs/ASMAnalysisService/src/main/java/ASMAnalysisService.java:348-411 | the loop over the edges records them as EdgesInto states |
| AsmAnalysis.GroupsOf | Extracteurs/ASMAnalysisService/src/main/java/ASMAnalysisService.java:284-411 | the three passes give a consistent grouping |
| AsmAnalysis.GroupsConsistent | Extracteurs/ASMAnalysisService/src/main/java/ASMAnalysisService.java:348-411 | the edge pass keeps a grouping consistent |
| AsmAnalysis.GroupedClasses | Extracteurs/ASMAnalysisService/src/main/java/ASMAnalysisService.java:284-416 | the classes answered are the kept class nodes, each with exactly its inheritance and field edges |
| AsmAnalysis.GroupedMethods | Extracteurs/ASMAnalysisService/src/main/java/ASMAnalysisService.java:313-411 | every method answered belongs to its class, and holds exactly its calls, arguments and last return edge |
| AsmAnalysis.GroupedMethodsComplete | Extracteurs/ASMAnalysisService/src/main/java/ASMAnalysisService.java:313-411 | conversely, every method node whose class is in the answer is listed among that class's methods |
| AsmAnalysis.Analyze | Extracteurs/ASMAnalysisService/src/main/java/ASMAnalysisService.java:151-419 | a request without sources, without classes or with a bad limit is refused; otherwise the grouping of the nodes and edges of the chosen files |
| AsmAnalysis.IndexNodes | Extracteurs/ASMAnalysisService/src/main/java/ASMAnalysisService.java:488-527 | the two passes compute the index IndexOf states |
| AsmAnalysis.IndexSymbols | Extracteurs/ASMAnalysisService/src/main/java/ASMAnalysisService.java:517-527 | one symbol per node, each carrying the class's entity flag |
| AsmAnalysis.IndexOfVisited | Extracteurs/ASMAnalysisService/src/main/java/ASMAnalysisService.java:497-514 | a file whose class is an enum is skipped; otherwise its class name and entity flag come from the class node |
| AsmAnalysis.Index | Extracteurs/ASMAnalysisService/src/main/java/ASMAnalysisService.java:463-541 | no class file, a missing one or one not ending `.class` is a 400; a failed analysis a 500 whose text names the file and the failure's message; otherwise the index |
| AsmAnalysis.ClassOfVisitedMethod | Extracteurs/ASMAnalysisService/src/main/java/ASMAnalysisService.java:321-324 | the class read back from a method name built by the class analyzer is that class |
| JavaClients.RequestFor | Extracteurs/JavaASTExtractor.py:237-246 | the request names the one resolved file, and carries the resolved repositories, in order, exactly when some are configured |
| JavaClients.DocumentShape | Extracteurs/JavaASTExtractor.py:286-299 | the text starts "type: callee", ends with " at fqn" when there is a caller FQN, else with " in caller()" when there is a caller, else is just the head |
| JavaClients.DocumentFallbacks | Extracteurs/JavaASTExtractor.py:288-291 | the camel-case keys win over the older ones; absent keys give `unknown` and "" |
| JavaClients.ParseUsagesMetadata | Extracteurs/extract_java_graph.py:242-271 | one entry per usage, in order, its metadata passed through unchanged |
| JavaClients.FirstFailureSpec | Extracteurs/JavaASTExtractor.py:265-268 | there is no failure exactly when every result succeeded; otherwise the failure found is the first unsuccessful result |
| JavaClients.AcceptRule | Extracteurs/extract_java_graph.py:227-240 | the answer is refused exactly when it reports failures and holds an unsuccessful result; an accepted one yields exactly the usages of the successful results |
| JavaClients.SuccessfulMetadata | Extracteurs/JavaASTExtractor.py:271-276 | a usage is kept exactly when it belongs to a successful result |
| Gradle.FieldsRoundTrip | Extracteurs/GradleDependencyManager.py:163-171 | an accepted report line is exactly the marker and its five fields joined by bars; the empty line is refused |
| Gradle.SplitHead | Extracteurs/GradleDependencyManager.py:167 | the first field of a split is the text before the first bar |
| Gradle.Reports | Extracteurs/GradleDependencyManager.py:160-171 | one read per output line |
| Gradle.ParseGradleOutput | Extracteurs/GradleDependencyManager.py:157-187 | the loop over the lines keeps what Read keeps from the line reports |
| Gradle.ReadSeen | Extracteurs/GradleDependencyManager.py:173-177 | the keys seen are exactly the keys of the accepted reports |
| Gradle.ReadDistinct | Extracteurs/GradleDependencyManager.py:173-177 | no two jars kept share a group:artifact:version key, and there are no more jars than report lines |
| Gradle.JarKeysSnoc | Extracteurs/GradleDependencyManager.py:174-177 | keeping a jar adds its key to the keys seen |
| Gradle.ReadFirst | Extracteurs/GradleDependencyManager.py:173-185 | every jar kept is the first accepted report of its key |
| Gradle.ReadKeepsFirst | Extracteurs/GradleDependencyManager.py:173-185 | the first accepted report of each key is kept |
| Gradle.FirstOfKeyExtends | Extracteurs/GradleDependencyManager.py:173-177 | being first of its key survives more lines |
| Gradle.ReportedKeysSnoc | Extracteurs/GradleDependencyManager.py:173-177 | a further accepted line adds its key |
| Gradle.ProcessPackageRule | Extracteurs/GradleDependencyManager.py:236-283 | no package exactly when nothing is unpacked; a package is named artifact-version with sources and classes under it, at least one of them present |
| Gradle.SourcesNameOfJar | Extracteurs/GradleDependencyManager.py:327-328 | a jar named `stem.jar` has sources named `stem-sources.jar` |
| Gradle.FirstHoldingSpec | Extracteurs/GradleDependencyManager.py:337-345 | the sibling search returns the first directory holding the sources jar, and nothing when none does |
| Gradle.FindSourcesJarSpec | Extracteurs/GradleDependencyManager.py:319-345 | the sources jar next to the jar wins; any answer exists and is named as the sources jar |
| Xsd.WithTagSpec | Extracteurs/parse_axelor_xsd.py:27 | an element is selected exactly when the iteration meets it and its tag is the one asked |
| Xsd.ChildrenTagged | Extracteurs/parse_axelor_xsd.py:43 | the selected children are exactly the children with the tag |
| Xsd.ElementChildrenSpec | Extracteurs/parse_axelor_xsd.py:42-43 | an element is collected exactly when it is an `element` child of some choice |
| Xsd.NamesWhereSpec | Extracteurs/parse_axelor_xsd.py:27-63 | a name is collected exactly when some element passing the test carries it |
| Xsd.GetMetadata | Extracteurs/parse_axelor_xsd.py:83-90 | each of the four lists is sorted without duplicates and holds exactly the names collected |
| Xsd.EventAttributesSpec | Extracteurs/parse_axelor_xsd.py:22-35 | an event attribute is an attribute whose name starts "on" and whose use is not `prohibited` |
| Xsd.ConditionalAttributesSpec | Extracteurs/parse_axelor_xsd.py:65-81 | a conditional attribute's name contains If, domain, target, expr or value, and its use is not `prohibited` |
| Xsd.ChoicePartition | Extracteurs/parse_axelor_xsd.py:37-63 | action types start "action-", view types start with neither "action-" nor "menuitem", no name is both, and every choice element is one or a menu item |
| Xsd.AttributeElementsSpec | Extracteurs/parse_axelor_xsd.py:27 | the attribute elements are exactly the `attribute` elements the iteration meets |
| Xsd.ChoiceElementsSpec | Extracteurs/parse_axelor_xsd.py:42-43 | the choice elements are exactly the `element` children of the choices the iteration meets |
| TypeScript.UnquoteQuoted | Extracteurs/extract_typescript_graph.py:386-392 | a text wrapped in a matching pair of double quotes, single quotes or backticks unquotes to what it wraps |
| TypeScript.UnquoteChanges | Extracteurs/extract_typescript_graph.py:386-394 | unquoting changes a text exactly when it starts with a quote character and ends with the same one; a lone quote character unquotes to "" |
| TypeScript.LiteralValue | Extracteurs/extract_typescript_graph.py:384-420 | a string node yields its unquoted value exactly when that value passes the interest filter, and the value then has 2 to 200 characters and matches a pattern |
| TypeScript.BlankTestRedundant | Extracteurs/extract_typescript_graph.py:401-408 | the not-blank test never decides: a value matching one of the patterns has a character that is not white space |
| TypeScript.NonSpaceAt | Extracteurs/extract_typescript_graph.py:402-408 | every value matching a pattern holds a character that is not white space |
| TypeScript.DottedNameKept | Extracteurs/extract_typescript_graph.py:401-404 | any dotted name of 2 to 200 characters is kept |
| TypeScript.FirstOfKindSpec | Extracteurs/extract_typescript_graph.py:357-367 | the child search finds the first child of the kind, and nothing exactly when there is none |
| TypeScript.FindFirst | Extracteurs/extract_typescript_graph.py:363-365 | the loop over the children returns the first child of the kind |
| TypeScript.ScanCallStopped | Extracteurs/extract_typescript_graph.py:357-361 | once an identifier child ends the scan, the later children contribute nothing |
| TypeScript.CallContext | Extracteurs/extract_typescript_graph.py:355-367 | the loop over a call's children inserts the parts the scan defines |
| TypeScript.CallOfIdentifier | Extracteurs/extract_typescript_graph.py:358-361 | a call on a plain identifier contributes "call:" and the name |
| TypeScript.CallOfMember | Extracteurs/extract_typescript_graph.py:362-366 | a call on a member expression contributes "call:" and its property name |
| TypeScript.GetStringContext | Extracteurs/extract_typescript_graph.py:349-381 | the ancestor walk returns the parts it collects joined by '.', or nothing when it collects none |
| TypeScript.ScanCallShape | Extracteurs/extract_typescript_graph.py:355-367 | every part a call contributes starts "call:" |
| TypeScript.WalkInsertsInFront | Extracteurs/extract_typescript_graph.py:354-379 | the walk only inserts in front of the parts it started with, and every part it inserts is an assignment, a variable, a call or a property |
| TypeScript.WalkBound | Extracteurs/extract_typescript_graph.py:354 | with one callee per call the walk never collects more than three parts |
| TypeScript.WalkEndsAtFirst | Extracteurs/extract_typescript_graph.py:355-377 | the walk stops at the first call expression or property assignment, so the ancestors above it never matter |
| TypeScript.HookIsNotComponent | Extracteurs/extract_typescript_graph.py:296-298 | no name counts both as a React component and as a hook |
| TypeScript.NamesOfKept | Extracteurs/extract_typescript_graph.py:291-298 | the names collected from a node's children all pass the name rule |
| TypeScript.VisitKeeps | Extracteurs/extract_typescript_graph.py:288-341 | every name a whole-tree pass reports passes the pass's own name rule |
| TypeScript.VisitKidsKeeps | Extracteurs/extract_typescript_graph.py:311-312 | the names the visit of the children reports pass the rule |
| TypeScript.ReportedNames | Extracteurs/extract_typescript_graph.py:286-343 | the component pass reports only capitalised names and the hook pass only names starting "use" |
| TypeScript.PackageImportsPassThrough | Extracteurs/extract_typescript_graph.py:97-102 | an empty module path resolves to ""; a path not starting with '.' or '/' is kept as it is, so resolving it twice changes nothing; any other path goes to the relative resolution |
| StringUtil.PyStrip | Extracteurs/GradleDependencyManager.py:161 | `str.strip()`: the result neither starts nor ends with white space, and is empty exactly when the line is all white space |
| StringUtil.JavaTrim | Extracteurs/JavaASTService/src/main/java/UsageCollector.java:154 | `String.trim()`: the result neither starts nor ends with a character at or below the space |
| StringUtil.TrimIdempotent | Extracteurs/GradleDependencyManager.py:161 | trimming twice is trimming once |
| StringUtil.SortedDistinct | Extracteurs/parse_axelor_xsd.py:86-89 | `sorted(set(...))`: strictly sorted and holding exactly the names given |
| StringUtil.SortedDistinctCanonical | Extracteurs/parse_axelor_xsd.py:86-89 | two collections with the same names give the same sorted list, whatever their order and repetitions |
| StringUtil.StrictlySortedUnique | Extracteurs/parse_axelor_xsd.py:86-89 | a strictly sorted list is fixed by its members |
| StringUtil.JoinSplit | Extracteurs/ASMExtractor.py:387-390 | joining the pieces of a split with the separator gives the text back |
| StringUtil.SplitCount | Extracteurs/ASMExtractor.py:387 | a split has one piece more than the separators in the text |
| StringUtil.IndexOf | Extracteurs/JavaASTService/src/main/java/JavaASTService.java:462 | `indexOf`: the first position where the text occurs, or -1 exactly when it occurs nowhere |
| StringUtil.AsciiLower | Extracteurs/extract_typescript_graph.py:407-408 | lower-casing leaves no upper-case letter and changes no other character |
| StringUtil.NatToStringRoundTrip | Extracteurs/call_graph_service.py:92 | the decimal digits of a number read back as the number |
| StringUtil.IntToString | Extracteurs/call_graph_service.py:92 | a number's decimal text starts with '-' exactly when the number is negative |
| QueryEngine.Matching | Extracteurs/call_graph_service.py:102-123 | the records a `where` filter selects are exactly the records satisfying every condition |
| QueryEngine.Slice | Extracteurs/call_graph_service.py:141 | a page is the window of `limit` records starting at `offset`, cut short at the end |
| QueryEngine.InsertByLineSorted | Extracteurs/call_graph_service.py:444 | inserting into a list sorted by caller line keeps it sorted |
| QueryEngine.InsertByLineMultiset | Extracteurs/call_graph_service.py:444 | inserting adds the one record and loses none |
| QueryEngine.WalkCoversRest | Extracteurs/call_graph_service.py:141-179 | paging on from an offset with a positive limit visits every later record once, in order |
| AsmExtractor.LazyVersionMatchAt | Extracteurs/ASMExtractor.py:931-948 | the version suffix match is lazy: it starts at the first dash followed by a version |

## Left out

- Process and I/O plumbing is not modelled: the HTTP servers and clients, JSON encoding, threads and thread pools, subprocess calls to Gradle, logging and console output. Only the values these pass along are modelled.
- The file system is a parameter: existence tests, directory walks, `Path.resolve`, zip extraction and the copying of a cache directory. Path operations are modelled on sequences of path components, without symlinks or `..` normalisation.
- SHA-256 is an uninterpreted function over the sorted (name, bytes) list; only its input is modelled, which is what makes the gate independent of discovery order.
- The vector store's embeddings and similarity search are left out; `get(where, limit)` is "the first `limit` records satisfying a conjunction of equalities". Entries are kept in insertion order, and Python and Java hash-map iteration order is replaced by insertion order.
- Regex-driven extraction in the XML extractor's viewer and expression passes (`AxelorXmlExtractor.py:1223-1372`) is out. Its references enter the model as a parameter (`others`) of the per-file extraction.
- The threaded `AxelorXmlExtractor.extract_all` (`AxelorXmlExtractor.py:171-316`) is modelled only through its per-file results; worker scheduling is out.
- The two regular expressions of `ASMExtractor.py` are modelled by hand-written matchers. They cover the lazy version-suffix match and the fact that `.` does not match a newline, not general regular expressions.
- `_build_project_uri`'s file-probing strategies are a parameter (`projectUri`).
- `SQLiteStorage.find_usages` is left out. It filters on `e.to_signature`, and the edges table has no such column (`SQLiteStorage.py:97-107`).
- QueryEngine.Slice: `offset` and `limit` are natural numbers. The MCP tools declare both as plain integers without a minimum (`mcp_callgraph_server.py:95-96`) and pass them on unchecked, so a negative bound reaches `filtered[offset:offset + limit]` (`call_graph_service.py:141`), which Python then counts from the end of the list; the model does not express negative bounds.
- QueryEngine.Paginate: takes natural `offset` and `limit` for the same reason, so Python's count-from-the-end reading of a negative bound is not modelled.
- QueryEngine.RawUsages, QueryEngine.FindUsages, QueryEngine.ImpactAnalysis, QueryEngine.FindCallees, QueryEngine.SearchByFile: take natural `offset` and `limit` as well. A negative value, and what the vector store's `get` does with a negative fetch size, are outside the model.
- The `format_*` presentation methods and `_extract_filename` of `call_graph_service.py` are presentation strings, not modelled.
- JavaParser parsing and symbol resolution are parameters. `resolveDeclarationLocation` (`UsageCollector.java:710-786`) is given as the declaration location of each call.
- UsageCollector.Collector.RecordReturnType: adds only the forward return-type usage; `createInverseUsagesForMatchingGenerics` (`UsageCollector.java:627-709`) is left out because it walks resolved type arguments that only JavaParser provides.
- UsageCollector.Collector.RecordParameterFallback: requires a package name, which the analysis service always supplies ("" when the file declares none, `JavaASTService.java:438-440`).
- Line and column numbers come from the parser and are passed in as numbers.
- The parser visitor of the analyze handler, which traverses the compilation unit, is left out; each kind of node it visits is a method of `UsageCollector.Collector`.
- The ASM `ClassReader` and descriptor parsing inside ASM are not modelled. Bytecode events are method calls on the analyzers, and method descriptors arrive already split into argument types.
- ClassAnalyzer.MethodAnalyzer.VisitLineNumber: requires a line below 65536, the range of the class file's `u2` line number entries (section 4.7.12 of the Java Virtual Machine Specification).
- `ASMAnalysisService.indexBatch` (`ASMAnalysisService.java:573-680`) and the `/health` and `/shutdown` endpoints are out: they only repeat `index` per file and report status.
- Java's `subList` with a negative limit throws; the model returns the failure as an error value instead of an exception.
- Case mapping and `isupper` are ASCII only: `str.lower()`, `toLowerCase()`, `isupper()` and `islower()` agree with the model on ASCII text, not on other Unicode letters.
- `splitlines` is modelled by cutting at every character Python treats as a line break. `\r\n` then gives an extra empty piece, and so does a final break. Empty lines are never dependency lines, so the parse result is the same.
- The XSD file is not parsed: the schema arrives as an element tree. The `main()` report printing of `parse_axelor_xsd.py` is out.
- The TypeScript usage records are left out: their line numbers, caller function and import map. The import, export and function-call passes of `extract_typescript_graph.py` are also out. The model keeps the literal filter, the context walk and the component and hook name rules.
- The relative branch of `_resolve_module_path` (`extract_typescript_graph.py:104-131`) probes the file system and is a parameter.
- TypeScript.WalkBound: holds only under `SingleCallee`. A `call_expression` with several `member_expression` children inserts one part per member expression, so the three-part bound of the walk's loop test can be exceeded by one call.
- Floating-point values in records are not modelled; record values are strings, integers, booleans and null.

## Findings

| source | as written | input that shows it | evidently intended | confidence | as-written member | corrected member |
|---|---|---|---|---|---|---|
| Extracteurs/SQLiteStorage.py:360 | the first edge id is `cursor.lastrowid - len(edge_rows) + 1` after `executemany`, which leaves `lastrowid` at `None` on the fresh cursor | any non-empty edge list, e.g. one `call` edge from `a.B.m()` to `c.D` | the id of the batch's first new edge, one past the edges stored before it, so annotation `idx` goes to edge `first_id + idx` | not executed | GraphStore.Store.AddEdgesBatchAsWritten, GraphStore.FirstIdAsWrittenFails | GraphStore.Store.AddEdgesBatch, GraphStore.FirstIdAgreesWithFormula |
| Extracteurs/JavaASTService/src/main/java/UsageCollector.java:153-154 | a piece is added as `current.toString().trim()` when the untrimmed text is non-empty, so a blank argument gives `""` | `A, ,B` splits into `A`, `""`, `B` | blank arguments dropped, as the non-empty filter before matching implies | not executed | UsageCollector.SplitGenericTypes, UsageCollector.BlankArgumentKept | UsageCollector.GenericTypes, UsageCollector.GenericTypesNoBlank |
