# CodeLens core, modelled in Dafny

CodeLens answers questions about a code base in four steps:

1. It indexes a repository into *code units*. A unit is one function, class or whole non-Python file, with its id, span, code, docstring, signature, the imports seen so far and the names it calls.
2. It builds a call graph over those units.
3. It retrieves the units that best match a question.
4. It asks a language-model provider, or an offline heuristic, for a structured answer. That answer is built from the retrieved units, their graph neighbours and the edges among them.

This project models those steps and proves what each one promises.

- `AstIndexer` (`ast_indexer.dfy`) models the syntax-tree visitor.
  - `ASTVisitor` is a class whose visit methods update its unit list, its current class and its import list.
  - Each visit method is proved to perform the step that the pure function `Visited` specifies.
  - The lemmas about `Visited` give the properties: unit shape, qualified method names, import snapshots, and the set of called names.
  - `CollectCalls` is the breadth-first `ast.walk` loop.
- `RepoIndex` (`index_repo.dfy`) models `index_repo` over a directory tree given as a value.
  - It prunes directories, dispatches on the file extension and skips unreadable or unparsable files.
- `Graph` (`graph_builder.dfy`) models `GraphBuilder`.
  - It builds the graph from call names and simple names, finds a shortest path and collects context neighbours.
- `Retrieval` (`retriever.dfy`) models `Retriever`.
  - It builds the corpus text and, in `query_top_k`, the ranking slice `argsort()[-k:][::-1]` and the zero-score filter.
- `Llm` (`llm.dfy`) models `LLMClient`.
  - It covers the provider choice, the prompt context, section extraction, response structuring, fence stripping and the offline analysis.
- `Pipeline` (`query_pipeline.dfy`) models `QueryPipeline.run`, which composes all of the above.
- Shared helpers:
  - `Text` (`text.dfy`) holds the Python `str` operations used.
  - `CodeUnits` (`code_units.dfy`) holds the unit record.
  - `Wrappers` (`wrappers.dfy`) holds `Option` and `Result`.

A definition's span is a `LineSpan`, whose start line never exceeds its end line, as Python's parser guarantees for `lineno` and `end_lineno`. Every unit the visitor emits therefore has `start_line <= end_line`. The one exception in the source is an empty non-Python file: its whole-file unit has start line 1 and end line `len(splitlines())`, which is 0.

The model takes the following as inputs:

- Python's parser, as a function from text to an optional tree.
- The TF-IDF similarity scores and their argsort.
- The remote model calls and `json.loads`, as functions.
- The process environment, as a map.

## Model

| member | source | states |
|---|---|---|
| AstIndexer.CollectCalls | src/codelens/ast_indexer.py:74-81 | The names collected by the breadth-first walk are exactly the callee names (`Name.id` or `Attribute.attr`) of every call node in the function's subtree. |
| AstIndexer.ImportSnapshotsArePrefixes | src/codelens/ast_indexer.py:49-57 | Within one file, the imports recorded by an earlier unit are a prefix of those recorded by any later unit. The list is only ever appended to. |
| AstIndexer.FunctionUnitFirst | src/codelens/ast_indexer.py:65-97 | A function's unit is emitted before the units nested in it. It is named after the enclosing class, records the imports seen before it, and carries exactly its subtree's call names. The current class is unchanged afterwards. |
| AstIndexer.ClassUnitFirst | src/codelens/ast_indexer.py:99-122 | A class's unit is emitted before its members. Its id is `path::Name` and it has no calls. The previous current class is restored after its body. |
| AstIndexer.ClassMethodsQualified | src/codelens/ast_indexer.py:66-68 | Every function unit emitted from a class body that has no nested classes is named `Class.method`. |
| AstIndexer.VisitedWellShaped | src/codelens/ast_indexer.py:83-95 | Every unit has the file's path, the id `path::name`, a span with `1 <= start_line <= end_line`, and the code of its line span joined by newlines. A function's signature is `def name(...)` and a class's is `class name`. |
| AstIndexer.ASTVisitor.constructor | src/codelens/ast_indexer.py:36-42 | The file's lines are `splitlines()` of its content; there are no units, no current class and no imports. |
| AstIndexer.ASTVisitor.Visit | src/codelens/ast_indexer.py:59-63 | Dispatching on the node kind changes the visitor's state exactly as `Visited` specifies. |
| AstIndexer.ASTVisitor.GenericVisit | src/codelens/ast_indexer.py:52 | Visiting the children in order changes the state as `VisitedAll` specifies. |
| AstIndexer.ASTVisitor.VisitImport | src/codelens/ast_indexer.py:49-52 | Every alias name is appended to the imports, then the children are visited. |
| AstIndexer.ASTVisitor.VisitImportFrom | src/codelens/ast_indexer.py:54-57 | The module is appended only when it is present, then the children are visited. |
| AstIndexer.ASTVisitor.ProcessFunction | src/codelens/ast_indexer.py:65-97 | Appends the function's unit and then visits its body, as `Visited` specifies. |
| AstIndexer.ASTVisitor.VisitClassDef | src/codelens/ast_indexer.py:99-122 | Appends the class's unit, visits its body with the class as the current class, and restores the previous one. |
| AstIndexer.CodeSnippet | src/codelens/ast_indexer.py:44-47 | Defines a unit's code: lines `lineno` to `end_lineno` of the file, joined with newlines, with Python's slice clamping. `VisitedWellShaped` proves every unit carries the code of its own span. |
| AstIndexer.CallsIn | src/codelens/ast_indexer.py:74-81 | Defines, as a fold over the tree, the callee names of every call in a subtree: `Name.id` or `Attribute.attr` of the called expression. `CollectCalls` proves the walk collects exactly this set. |
| AstIndexer.Visited | src/codelens/ast_indexer.py:49-122 | Defines the visitor's state after one node: imports appended, a definition's unit appended before its body is visited, the class register set and restored around a class body, and the children visited otherwise. The lemmas above state its properties. |
| AstIndexer.VisitedAll | src/codelens/ast_indexer.py:52 | Defines the state after visiting nodes left to right, as `generic_visit` does with the children. |
| RepoIndex.WholeFileUnit | src/codelens/ast_indexer.py:156-166 | A whole-file unit has its relative path as id and file path, kind `file`, line 1 up to the number of `splitlines()` lines, the whole content as code, and no docstring, signature, imports or calls. The end line is 0 exactly when the content is empty, so an empty file's unit ends before it starts. |
| RepoIndex.IndexFile | src/codelens/ast_indexer.py:138-169 | One file contributes the visitor's units for parsable `.py` files and one unit for the listed text extensions. Otherwise, and on read or parse failure, it contributes nothing. |
| RepoIndex.IndexFiles | src/codelens/ast_indexer.py:134-136 | A directory's files contribute their units in listing order under the directory's relative path. |
| RepoIndex.IndexRepo | src/codelens/ast_indexer.py:124-172 | The worklist walk returns exactly the units of the top-down traversal of the tree. |
| RepoIndex.RepoUnitsShaped | src/codelens/ast_indexer.py:144-166 | Every indexed unit's id is its file path, or that path followed by `::` and its name. A file unit starts at line 1 and has no imports or calls. |
| RepoIndex.PrunedDirIgnored | src/codelens/ast_indexer.py:132 | Replacing the contents of a pruned directory (hidden, `venv`, `tests`, `node_modules`, `__pycache__`) does not change the index. |
| RepoIndex.SkippedFiles | src/codelens/ast_indexer.py:138-169 | An unreadable file, an unparsable `.py` file, or a file of any other extension yields no unit. |
| RepoIndex.WholeFileIndexed | src/codelens/ast_indexer.py:150-167 | A readable `.java`, `.js`, `.ts`, `.md` or `.txt` file yields exactly one file unit, holding its whole content. |
| RepoIndex.PythonFileIndexed | src/codelens/ast_indexer.py:138-147 | A parsable Python file yields only units that are well shaped for that file. |
| RepoIndex.FileUnits | src/codelens/ast_indexer.py:138-169 | Defines one file's units: the visitor's units for a readable, parsable `.py` file, one whole-file unit for a readable file of a listed extension, and none otherwise. `IndexFile` is proved to compute it, and `SkippedFiles`, `WholeFileIndexed` and `PythonFileIndexed` state its cases. |
| RepoIndex.IndexFolder | src/codelens/ast_indexer.py:130-169 | Defines a directory's units in `os.walk` order: its own files first, then each kept sub-directory in turn. `IndexRepo` is proved to compute it. |
| Graph.SimpleNameIsLastPiece | src/codelens/graph_builder.py:24 | The simple name is the last piece of `name.split('.')`. |
| Graph.UnitMap | src/codelens/graph_builder.py:9 | The id map has exactly the units' ids as keys. Each id maps to a unit with that id, and to the last such unit in the list. |
| Graph.GraphBuilder.constructor | src/codelens/graph_builder.py:6-9 | Stores the units and their id map; the graph is empty. |
| Graph.GraphBuilder.IndexNames | src/codelens/graph_builder.py:22-27 | Each simple name maps to the ids of the units with that simple name, in order, and only names that some unit has are keys. |
| Graph.GraphBuilder.Build | src/codelens/graph_builder.py:11-39 | The nodes gain the unit ids and the edges gain exactly the call edges, each labelled `call`. On an empty graph the result is `BuiltGraph(units)`. |
| Graph.BuiltNodes | src/codelens/graph_builder.py:15-16 | The nodes are exactly the unit ids, each once. |
| Graph.BuiltEdges | src/codelens/graph_builder.py:29-36 | `a -> b` is an edge exactly when `a != b` and a unit with id `a` calls the simple name of a unit with id `b`. Every edge is labelled `call`. |
| Graph.BuiltWellFormed | src/codelens/graph_builder.py:15-36 | Every edge joins two nodes. |
| Graph.NoSelfLoops | src/codelens/graph_builder.py:35 | No unit is linked to itself. |
| Graph.AmbiguousCallsFanOut | src/codelens/graph_builder.py:32-36 | A call of a name that several units share links the caller to all of them except itself. |
| Graph.SilentUnitsHaveNoSuccessors | src/codelens/graph_builder.py:29-36 | A unit id whose units call nothing has no outgoing edge. |
| Graph.GraphBuilder.FindCallPath | src/codelens/graph_builder.py:41-47 | A non-empty result is a path from start to end no longer than any other. The result is empty exactly when no path exists, including when an endpoint is not a node. A node reaches itself by the path made of itself. |
| Graph.GraphBuilder.GetContextNeighbors | src/codelens/graph_builder.py:49-58 | Returns each known unit once whose id is a requested id or a successor or predecessor of one. |
| Graph.ContextIdsMeaning | src/codelens/graph_builder.py:51-56 | An id is in the context exactly when it was requested or is adjacent to a requested id in either direction. |
| Graph.ContextSymmetric | src/codelens/graph_builder.py:55-56 | Being in each other's context is symmetric. |
| Graph.SimpleName | src/codelens/graph_builder.py:24 | Defines the simple name as the text after the last dot. `SimpleNameIsLastPiece` proves it is `split('.')[-1]`. |
| Graph.IdsNamed | src/codelens/graph_builder.py:22-27 | The ids listed under a simple name, in unit order, are never more than the units. `IdsNamedMembers` proves they are exactly the ids of the units with that simple name. |
| Graph.BuiltGraph | src/codelens/graph_builder.py:11-39 | Defines the graph `build` returns: the unit ids as nodes, and the call edges labelled `call`. `BuiltNodes`, `BuiltEdges` and the lemmas after them state its properties. |
| Graph.ContextIds | src/codelens/graph_builder.py:51-56 | Defines `relevant_ids` after the loop: the requested ids plus the successors and predecessors of those that are nodes. `ContextIdsMeaning` states it in terms of adjacency. |
| Graph.GraphBuilder.AddTargets | src/codelens/graph_builder.py:33-36 | The loop over one call's targets leaves the nodes unchanged and adds a `call` edge to each target whose id is not the caller's. |
| Graph.GraphBuilder.AddCallEdges | src/codelens/graph_builder.py:30-36 | The loop over one unit's calls leaves the nodes unchanged and adds a `call` edge to every other unit whose simple name the unit calls. |
| Retrieval.CorpusTextLayout | src/codelens/retriever.py:26 | A corpus entry is the name, the kind, the docstring (or `None`) and the code, separated by single spaces. |
| Retrieval.Retriever.IndexUnits | src/codelens/retriever.py:23-33 | Stores the units. Fits the matrix on their corpus unless there are none, in which case it keeps the old matrix. |
| Retrieval.Retriever.QueryTopK | src/codelens/retriever.py:35-52 | With no matrix the result is `[]`. Otherwise it is the positive-score hits among the `k` best-ranked positions, or an error when a ranked position has no unit. |
| Retrieval.Retriever.Collect | src/codelens/retriever.py:46-52 | The loop keeps the ranked positions with positive score, in ranking order, as id and score pairs. |
| Retrieval.TopIndicesSliced | src/codelens/retriever.py:44 | The ranked positions are the reverse of the argsort's Python slice `[-k:]`, for every integer `k`. |
| Retrieval.QueryResults | src/codelens/retriever.py:35-52 | The hits are distinct, at most `k` for `k >= 1`, all positive and for known units, and ordered by score. No unkept unit outscores a hit. |
| Retrieval.ZeroKReturnsAllPositive | src/codelens/retriever.py:44 | With `k == 0` every position with a positive score is kept, since `[-0:]` is the whole ranking. |
| Retrieval.SelectFails | src/codelens/retriever.py:46-50 | Selection fails exactly when a kept position has a positive score and no unit. |
| Retrieval.StaleIndexRaises | src/codelens/retriever.py:28-30 | After re-indexing with no units, a query fails exactly when some ranked position of the old matrix has a positive score. |
| Retrieval.CorpusText | src/codelens/retriever.py:26 | Defines one unit's corpus entry. `CorpusTextLayout` states its layout. |
| Retrieval.Corpus | src/codelens/retriever.py:26 | The corpus has one entry per unit, in unit order. |
| Retrieval.PyTail | src/codelens/retriever.py:44 | Python's slice `s[-k:]` for every integer `k`: the last `k` items for positive `k`, the whole sequence for zero, and all but the first `-k` for negative `k`. |
| Retrieval.TopIndices | src/codelens/retriever.py:44 | The visited positions are the last `TopCount` entries of the argsort, highest first. `TopIndicesSliced` proves they are `argsort()[-k:][::-1]`. |
| Retrieval.Select | src/codelens/retriever.py:46-52 | Defines the loop's outcome: the hits of the positive-scoring ranked positions, or `IndexError` when one of them has no unit. `SelectFails` and `QueryResults` state its properties. |
| Retrieval.Retriever.constructor | src/codelens/retriever.py:9-13 | No units and no matrix. `use_openai` is whether an OpenAI key is set. |
| Llm.ProviderChoice | src/codelens/llm.py:23-51 | The provider is `huggingface`, `openai` or `none`. It is `huggingface` exactly when that name (in any case) was configured and a token is present, and likewise for `openai` with its key. |
| Llm.ProviderIgnoresCase | src/codelens/llm.py:23 | For every configured name and credentials, the choice is the same as for the lower-cased name. |
| Llm.LLMClient.constructor | src/codelens/llm.py:21-51 | The token is `HUGGINGFACE_API_KEY` or else `HF_TOKEN`. The two models default to the source's names. The provider is the choice above. |
| Llm.LLMClient.GenerateAnswer | src/codelens/llm.py:66-81 | The answer is the routed response, for a prompt context built block by block by the loop. |
| Llm.LLMClient.RespondRouting | src/codelens/llm.py:76-81 | Offline mode answers with the offline analysis. A remote provider answers in its own name or falls back to the offline analysis. |
| Llm.LLMClient.FallbackLogic | src/codelens/llm.py:206-230 | The two append loops produce the offline analysis. |
| Llm.ExtractSectionInfix | src/codelens/llm.py:191-204 | An extracted section is always a contiguous piece of the text. |
| Llm.ExtractSectionMissing | src/codelens/llm.py:194-195 | Without the start header, in any case, the section is empty. |
| Llm.ExtractSectionAtEnd | src/codelens/llm.py:197-198 | A header that ends the text gives the empty section, since the index past it raises. |
| Llm.ExtractSectionUntil | src/codelens/llm.py:197-202 | With the end header found after the body start, the section is the stripped text between them. One colon after the start header is skipped. |
| Llm.ExtractSectionCapped | src/codelens/llm.py:200-203 | With no end header, or none found, the section is the stripped next 500 characters, so at most 500 long. |
| Llm.SummaryField | src/codelens/llm.py:183 | The summary is a piece of the text, and is not empty unless the text is. |
| Llm.FlowField | src/codelens/llm.py:184 | The call flow is a piece of the text or the first five graph lines joined. It is empty only if those are. |
| Llm.PointsField | src/codelens/llm.py:185 | The key points are a piece of the text or `See analysis above.`, and never empty. |
| Llm.StructureResponseShape | src/codelens/llm.py:180-189 | A structured answer has exactly the six keys. Its sources are the unit ids in order, `ai_analysis` is the whole text, and it names the given provider. |
| Llm.StripFencesSpec | src/codelens/llm.py:163-166 | The result is the text from just after the first "```json" up to the next fence; else from just after the first fence up to the next; else the content unchanged. |
| Llm.Preview | src/codelens/llm.py:214 | The code preview is at most 100 characters and contains no newline. |
| Llm.HotspotsMembers | src/codelens/llm.py:218-221 | The hotspot lines are exactly those of the entry-point or hub units, at most one per unit. |
| Llm.EntryPointFirst | src/codelens/llm.py:220 | A name containing `main` in any case marks an entry point, whatever the number of calls. |
| Llm.FallbackShape | src/codelens/llm.py:206-230 | No units gives exactly `No code found.` and `Offline Analysis`. Otherwise there are six keys and the ids as sources. There are summaries of the first five units only. The call flow is the first five edges joined by newlines, or `No calls detected.` for no edges. The hotspots are the first five hotspot lines joined by newlines, and read `None detected.` exactly when no unit is an entry point or hub. |
| Llm.HuggingFacePrompt | src/codelens/llm.py:90-93 | The user prompt opens with `Question: ` and the question. |
| Llm.HuggingFacePromptLayout | src/codelens/llm.py:90-93 | The first 1500 characters of the context and the first 400 of the graph follow their headings at the stated positions. The prompt's length is theirs plus the question's plus 136 characters of fixed text, so at most the question's plus 2036. |
| Llm.RemoteAnswersNameProvider | src/codelens/llm.py:137-175 | An OpenAI answer names `OpenAI` and a Hugging Face answer names `Hugging Face (model)`, unless either falls back to the offline analysis. |
| Llm.ContextHasEveryUnit | src/codelens/llm.py:70-72 | The prompt context holds every unit's block: its id and the first 500 characters of its code. |
| Llm.ChooseProvider | src/codelens/llm.py:23-51 | Defines the provider choice from the configured name and the presence of each credential. `ProviderChoice` and `ProviderIgnoresCase` state its properties. |
| Llm.ExtractSection | src/codelens/llm.py:191-204 | Defines `_extract_section`, including the caught index error. The `ExtractSection` lemmas above state its cases. |
| Llm.StructureResponse | src/codelens/llm.py:180-189 | Defines the six-field structured answer. `StructureResponseShape` and the three field lemmas state its properties. |
| Llm.StripFences | src/codelens/llm.py:163-166 | Defines the fence stripping. `StripFencesSpec` states it in terms of fence positions. |
| Llm.OfflineAnswer | src/codelens/llm.py:223-230 | Defines the six-field offline record from the summary lines, edges, hotspot lines and ids. |
| Llm.Fallback | src/codelens/llm.py:206-230 | Defines `_fallback_logic`. `FallbackShape` states its cases, and `FallbackLogic` is proved to compute it. |
| Llm.OpenAIAnswer | src/codelens/llm.py:145-175 | Defines the OpenAI answer from the reply: fallback on failure, the decoded object with provider `OpenAI`, a structured answer for undecodable text, and fallback for other JSON. `RemoteAnswersNameProvider` states what it guarantees. |
| Llm.HuggingFaceAnswer | src/codelens/llm.py:137-140 | Defines the Hugging Face answer: structured when text was generated, the fallback otherwise. `RemoteAnswersNameProvider` states what it guarantees. |
| Llm.ContextString | src/codelens/llm.py:70-72 | Defines the prompt context as the concatenated blocks of the units. `ContextHasEveryUnit` states its content, and `GenerateAnswer`'s loop is proved to compute it. |
| Llm.LLMClient.Respond | src/codelens/llm.py:76-81 | Defines the routing by provider. `RespondRouting` states its cases. |
| Pipeline.QueryPipeline.constructor | src/codelens/query_pipeline.py:8-19 | Maps ids to units, builds the graph, indexes the units and sets up the client from the environment. |
| Pipeline.QueryPipeline.EdgeLines | src/codelens/query_pipeline.py:39-42 | Lists every edge of the subgraph on the given ids exactly once, as `u -> v (type)`. |
| Pipeline.QueryPipeline.Run | src/codelens/query_pipeline.py:21-50 | The answer is the generator's. It is built from a context holding each retrieved or neighbouring known unit once, and from the subgraph's edge lines. The retrieved ids, best first, replace its sources. Nothing retrieved gives an empty context and no edges. |
| Graph.GraphBuilder.UnitsOf | src/codelens/query_pipeline.py:36 | The final context holds, once each, the unit the id map gives for every id of the set that it knows. |
| Pipeline.EdgeLinesAreCalls | src/codelens/query_pipeline.py:39-42 | On the built graph each listed line reads `u -> v (call)` for a call edge inside the context, with one line per such edge. |
| Pipeline.EmptyListing | src/codelens/query_pipeline.py:33-42 | An empty id set gives an empty context and no edge lines. |
| Pipeline.TopIdsKnown | src/codelens/query_pipeline.py:25-27 | Every retrieved id is the id of an indexed unit, so the lookups into the id map succeed. |
| Pipeline.TopHits | src/codelens/query_pipeline.py:25 | Defines the hits `query_top_k` gives on the pipeline's index; none when there are no units. `TopIdsKnown` and `Run` state what follows from them. |
| Pipeline.EdgeLine | src/codelens/query_pipeline.py:42 | Defines one edge's line, `u -> v (type)`. `EdgeLinesAreCalls` states what the lines are on the built graph. |

## Left out

- Missing dictionary keys are not modelled. The source reads `u.get('id', '?')`, `u.get('calls', [])` and `u.get('docstring', '')`. Every record the indexer writes has every key, so the model's units always carry every field.
- Lower-casing and `in`/`find` after `lower()` are modelled for ASCII letters only. Python's `str.lower()` also maps other letters, and can change a string's length.
- Iteration order of sets and of networkx's edges and successors is not fixed.
  - The callee list is kept as a set.
  - The context and the edge lines are stated up to order: each element once, in some order.
- The TF-IDF vectoriser and cosine similarity are left out. `QueryTopK` takes the similarity scores and a proved argsort of them as inputs.
- The remote calls are function parameters: Hugging Face's client and raw HTTP, the OpenAI SDK call and its prompt template, and `json.loads`.
  - A decoded JSON object is restricted to string and string-list values.
  - The try/except around each call is folded into those functions' results.
- The Hugging Face client set-up (`_init_huggingface`) is left out. So is the choice between the client and the raw HTTP request, which only affects how the generated text is obtained.
- The process environment is a map argument, and reading files is a directory tree value whose files carry optional contents (absent means the read failed). `ast.parse` is a function parameter.
- Logging is left out.
- `find_call_path` returns a shortest path, but networkx's choice among several equally short paths is not modelled.
- `get_context_neighbors` accepts `depth` and ignores it. The model does the same.
- Node attributes copied from the units into the graph are left out. Only the edge `type` label is read back.
- In `run`, `top_units` is used only for logging, so only the id-map lookups behind it are proved safe (`TopIdsKnown`).
- `Retriever`'s `use_openai` flag is recorded but changes nothing, as in the source.
