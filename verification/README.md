# Contextual retrieval: a Dafny model

This project models the logic of a small retrieval-augmented chat service
written in Python. The logic sits around the libraries the service calls:

- **`retrieval_tool.dfy`**: the retrieval tool, `ContextualRetrievalTool` in
  agent/retrieval_tool.py.
  - It holds an optional query engine and a cap on cited sources.
  - It answers a question with an `Answer:` line.
  - It then adds an optional `Sources:` block of numbered citation lines. Each
    line has a display name, a score and a 160-character snippet.
- **`ingest.dfy`**: contextual ingestion, scripts/ingest.py.
  - Every node the splitter produces keeps its text under `orig_text` and
    records the document name under `doc_name`.
  - The node's text is replaced by a four-line header (title, section path,
    intent, chunk marker) followed by the original text.
  - A document whose name already matches a stored row under SQL
    `LIKE '%name%'` is skipped.
  - `ingest_all_documents` ingests the regular files of a directory in order.
- **`retrieval_agent.dfy`**: the crew-based agent's `execute`,
  agents/retrieval_agent.py. It builds a task description that spells out the
  tool call. It then reduces the crew's output to one string by a priority
  rule: a non-blank `raw`, else the stripped per-task parts joined by blank
  lines, else `str(out)`.
- **`chat_server.dfy`**: the chat endpoint of main.py.
  - `ask_question` asks the tool about the last message with `top_k=20` and
    `return_sources=3`.
  - `event_stream` sends the answer as server-sent events: one chunk per line
    of `splitlines(keepends=True)`, then a stop chunk, then `[DONE]`.
- **`strings.dfy`** and **`py.dfy`** hold the Python semantics the four
  pieces rely on:
  - `str.strip`, `str.splitlines(keepends=True)`, `str.lower`, `str(int)`,
    `s[:n]`, `sep.join`;
  - substring containment;
  - truthiness and `str()` of values;
  - the insertion-ordered `dict` with `get` and item assignment.

Where the source changes state in place, the model does too:

- the tool is a class whose `SetQueryEngine` and `Run` update its fields;
- the nodes are objects whose `text` and `metadata` a loop rewrites;
- the vector store is an object whose rows `Persist` appends to.

Each method is proved against a function of its inputs and its old state.
The properties are proved about those functions: the source cap, the
display-name and section-path fallbacks, the lossless line split, the
preserved original text, and skip-on-duplicate idempotence of ingestion.

The query engine is a function from question to response. The crew is a
function from task description to crew output. The clock and the JSON
encoder of the event stream are parameters.

## Model

| member | source | states |
|---|---|---|
| RetrievalTool.ContextualRetrievalTool.constructor | agent/retrieval_tool.py:23-24 | a new tool has no query engine and a source cap of 3 |
| RetrievalTool.ContextualRetrievalTool.SetQueryEngine | agent/retrieval_tool.py:26-28 | the engine and the cap are both replaced; the cap defaults to 3 |
| RetrievalTool.ContextualRetrievalTool.Run | agent/retrieval_tool.py:30-52 | with no engine, the result is exactly the "not initialized" diagnostic and no question is asked; otherwise the engine is asked this one question and the answer is the shaped response with budget min(return_sources, cap); top_k plays no part |
| RetrievalTool.FormatResponse | agent/retrieval_tool.py:39-52 | the loop that builds the citation lines one by one yields exactly the specified answer text |
| RetrievalTool.Snippet | agent/retrieval_tool.py:48 | the snippet has min(len(content), 160) characters and no newline; every character is the content's own, except that a newline became a space |
| RetrievalTool.CappedPrefix | agent/retrieval_tool.py:41-44 | the cited nodes are a prefix of the retrieved nodes, with no more than k of them (none when k ≤ 0), and exactly min(k, n) when k is positive |
| RetrievalTool.ShapeStartsWithAnswer | agent/retrieval_tool.py:39-52 | the answer always begins with "Answer: " and the response text |
| RetrievalTool.SourcesBlockAbsentIff | agent/retrieval_tool.py:42-51 | the answer is just the answer line exactly when the source nodes are missing or empty, or the budget is not positive; the Sources block is never emitted empty |
| RetrievalTool.ShapeWithSources | agent/retrieval_tool.py:44-52 | with nodes and a positive budget, the answer line is followed by "\nSources:\n" and min(k, n) citation lines joined by "\n"; the i-th line cites the i-th node with number i + 1 |
| RetrievalTool.SourceLinesShape | agent/retrieval_tool.py:44-49 | for a positive budget there are min(k, n) citation lines, numbered from 1 in retrieval order |
| RetrievalTool.SourceCountBounded | agent/retrieval_tool.py:41-44 | the number of cited sources is at most the number retrieved, the number requested and the cap (or zero); it equals min(return_sources, cap) when that is between 0 and the number retrieved |
| RetrievalTool.DisplayNameFallback | agent/retrieval_tool.py:45-46 | the display name is file_name when truthy, else file_path when truthy, else "doc" whenever neither is truthy, whether the keys are missing or hold a falsy value; a node without metadata is cited as "doc" |
| RetrievalTool.NegativeRequestBypassesCap | agent/retrieval_tool.py:41-44 | as written, a negative budget slices off only the last nodes, so more nodes than the cap are cited (see Findings) |
| RetrievalTool.PySliceTo | agent/retrieval_tool.py:44 | definition of Python's `[:k]` as written, a negative k dropping the last -k nodes; properties in NegativeRequestBypassesCap and CappedPrefixAgrees |
| RetrievalTool.MetadataOf | agent/retrieval_tool.py:45 | definition of `sn.node.metadata or {}`; properties in DisplayNameFallback |
| RetrievalTool.ContentOf | agent/retrieval_tool.py:48 | definition of `sn.node.get_content() or ""`; properties in Snippet |
| RetrievalTool.DisplayName | agent/retrieval_tool.py:45-46 | definition; properties in DisplayNameFallback |
| RetrievalTool.CitationLine | agent/retrieval_tool.py:49 | definition of one citation line; properties in SourceLinesShape and ShapeWithSources |
| RetrievalTool.SourceLines | agent/retrieval_tool.py:43-49 | definition over the capped slice; properties in SourceLinesShape |
| RetrievalTool.Shape | agent/retrieval_tool.py:39-52 | definition over the capped slice; properties in ShapeStartsWithAnswer, SourcesBlockAbsentIff, ShapeWithSources and SourceCountBounded |
| RetrievalTool.Answer | agent/retrieval_tool.py:32-52 | definition; the diagnostic without an engine, else Shape with budget min(return_sources, cap); properties in ContextualRetrievalTool.Run |
| RetrievalTool.CappedPrefixAgrees | agent/retrieval_tool.py:44 | for a budget k ≥ 0 the capped prefix is exactly Python's `nodes[:k]` |
| Ingest.MentionsSection | scripts/ingest.py:21 | definition of the key filter; properties in NoSectionKeys, SectionValueListed and BookkeepingKeysAreNotSections |
| Ingest.SectionValues | scripts/ingest.py:21 | definition; properties in NoSectionKeys, SectionValueListed and SectionValuesIgnoreKey |
| Ingest.SectionPath | scripts/ingest.py:21-22 | definition; properties in SectionPathFallback, SectionPathWithoutSections, SectionPathFromSections and SectionPathIgnoresKey |
| Ingest.TitleLine | scripts/ingest.py:24 | definition; properties in ContextualTextShape |
| Ingest.Header | scripts/ingest.py:23-28 | definition; properties in ContextualTextShape and RewriteKeepsOriginal |
| Ingest.ContextualText | scripts/ingest.py:20-29 | definition of make_contextual_text; properties in ContextualTextShape and RewriteKeepsOriginal |
| Ingest.Tagged | scripts/ingest.py:62-63 | definition; properties in TaggedRecordsName and RewriteKeepsOriginal |
| Ingest.Rewritten | scripts/ingest.py:62-64 | definition; properties in RewriteKeepsOriginal, RewriteNode and Contextualize |
| Ingest.ContextualTextShape | scripts/ingest.py:23-29 | the contextual text opens with "[DOC_TITLE] " + title + "\n" and ends with the node's unchanged text |
| Ingest.NoSectionKeys | scripts/ingest.py:21 | keys that mention neither "header" nor "section" (after lower-casing) contribute no section value |
| Ingest.SectionValueListed | scripts/ingest.py:21 | the value under every section key appears, as its str(), among the section values |
| Ingest.SectionPathFallback | scripts/ingest.py:21-22 | whenever the " > "-join is empty, which happens exactly when there is no section value or a single one whose str() is empty, the section path is str(file_name) when that key exists, even if its value is empty, else "Unknown Section" |
| Ingest.SectionPathWithoutSections | scripts/ingest.py:21-22 | with no section key, the section path is str(file_name) when that key exists, even if its value is empty, else "Unknown Section" |
| Ingest.SectionPathFromSections | scripts/ingest.py:21-22 | when a section key holds a value with a non-empty str(), the section path is the " > "-join of the section values and contains that value |
| Ingest.SectionValuesIgnoreKey | scripts/ingest.py:62-64 | assigning a key that is not a section key leaves the section values unchanged |
| Ingest.SectionPathIgnoresKey | scripts/ingest.py:62-64 | assigning a key that is neither a section key nor file_name leaves the section path unchanged |
| Ingest.BookkeepingKeysAreNotSections | scripts/ingest.py:62-63 | "orig_text" and "doc_name" are not section keys |
| Ingest.RewriteKeepsOriginal | scripts/ingest.py:61-64 | after the rewrite, orig_text holds the original text and doc_name holds the document name; every other key keeps its value; the new text is the header built from the original section path followed by the original text, so the original text is also the tail of the new text |
| Ingest.TaggedRecordsName | scripts/ingest.py:63 | the rewritten metadata maps doc_name to the document name |
| Ingest.RewriteNode | scripts/ingest.py:62-64 | the in-place rewrite of one node leaves it holding the rewritten chunk |
| Ingest.Contextualize | scripts/ingest.py:61-64 | after the loop, every node, in order, holds the rewrite of what it held before |
| Ingest.MakeNodes | scripts/ingest.py:59 | the splitter's chunks become fresh, distinct node objects, one per chunk and in order |
| Ingest.VectorStore.Persist | scripts/ingest.py:66-67 | the store keeps its rows and appends one row per node, holding that node's metadata, in node order |
| Ingest.Serialize | scripts/ingest.py:35 | definition of the stand-in for `metadata_::TEXT`; properties in SerializedContainsValue |
| Ingest.Like | scripts/ingest.py:35-36 | definition of LIKE; properties in LikeAt, LikeWhenContained and WildcardNameMatches |
| Ingest.LikePattern | scripts/ingest.py:36 | definition; properties in LikeAt and LikeWhenContained |
| Ingest.RowMatches | scripts/ingest.py:35-36 | definition; properties in IsIndexedIff |
| Ingest.IsIndexed | scripts/ingest.py:31-41 | definition; properties in IsIndexedIff, IsDocumentIndexed and IndexedStaysIndexed |
| Ingest.SerializedContainsValue | scripts/ingest.py:35 | the str() of every stored metadata value occurs in the row's metadata text |
| Ingest.IsIndexedIff | scripts/ingest.py:34-41 | a name is indexed exactly when some stored row's metadata text matches '%name%' |
| Ingest.IsDocumentIndexed | scripts/ingest.py:31-41 | counting the matching rows and testing count > 0 decides exactly whether the name is indexed |
| Ingest.LikeAt | scripts/ingest.py:35-36 | for a name without a backslash (LIKE's escape character), a row matches '%name%' wherever some window of it agrees with the name outside the name's wildcards |
| Ingest.LikeWhenContained | scripts/ingest.py:35-36 | a row that contains the name (one without a backslash, LIKE's escape character) matches '%name%' |
| Ingest.Basename | scripts/ingest.py:44 | definition of os.path.basename; properties in NameStart and BasenameOfJoin |
| Ingest.PathJoin | scripts/ingest.py:72 | definition of os.path.join for a relative name; properties in BasenameOfJoin |
| Ingest.NameStart | scripts/ingest.py:44 | the basename starts just after the last '/', or at 0 when there is none, and contains no '/' |
| Ingest.BasenameOfJoin | scripts/ingest.py:44 | the basename of os.path.join(dir, name) is name, for a listed name without '/' |
| Ingest.RowsFor | scripts/ingest.py:61-67 | definition; properties in WriteDocument |
| Ingest.IngestRows | scripts/ingest.py:43-68 | definition; properties in IngestDocument, IngestRowsExtends, IngestMarksIndexed and IngestTwiceAddsOnce |
| Ingest.WriteDocument | scripts/ingest.py:58-67 | the nodes are rewritten and persisted: the store gains exactly the rewritten metadata of each chunk, in order, and each returned node holds its rewritten chunk |
| Ingest.IngestDocument | scripts/ingest.py:43-68 | the store becomes the specified ingestion result; when the name is already indexed or the loader finds nothing, no node is written and the store is unchanged; otherwise there is one rewritten node per chunk, in order |
| Ingest.Files | scripts/ingest.py:71-75 | the listed files are exactly the regular-file entries of the directory |
| Ingest.ListFiles | scripts/ingest.py:71-75 | one pass over the listing keeps the regular files in listing order |
| Ingest.IngestAllRows | scripts/ingest.py:70-80 | definition of the in-order fold; properties in IngestAll, IngestAllExtends, ProductiveFilesIndexed and IngestAllTwiceAddsOnce |
| Ingest.IngestAll | scripts/ingest.py:70-80 | the regular files are ingested one at a time in listing order; the store ends as the specified fold of ingestions, unchanged when there are no files |
| Ingest.IngestAllExtends | scripts/ingest.py:79-80 | ingesting a directory only appends rows |
| Ingest.IndexedStaysIndexed | scripts/ingest.py:34-41 | a name indexed in some rows stays indexed when rows are appended |
| Ingest.IngestMarksIndexed | scripts/ingest.py:44-67 | once a document that loads and splits into at least one node is ingested, its name is indexed |
| Ingest.IndexedDocumentSkipped | scripts/ingest.py:45-47 | definition unfolding: a document whose name is already indexed leaves the store unchanged |
| Ingest.IngestTwiceAddsOnce | scripts/ingest.py:43-68 | ingesting the same file twice adds its rows only once |
| Ingest.SubstringNameSkipped | scripts/ingest.py:36 | false positive: after document A is written, a never-ingested document whose name occurs inside A's name is skipped |
| Ingest.WildcardNameMatches | scripts/ingest.py:36 | false positive: a name holding `_` or `%` counts as indexed when a stored row contains a different name that agrees with it outside the wildcards |
| Ingest.IngestRowsExtends | scripts/ingest.py:43-68 | definition unfolding: ingesting one document only appends rows |
| Ingest.IngestAllRowsStep | scripts/ingest.py:79-80 | definition unfolding: the last listed file is ingested into the rows that the earlier files leave |
| Ingest.FileIndexed | scripts/ingest.py:72 | a productive listed file is indexed under its own name once ingested |
| Ingest.FileSkippedWhenIndexed | scripts/ingest.py:45-56 | a listed file writes nothing when it is already indexed or it does not load and split into at least one node |
| Ingest.StepKeepsIndexed | scripts/ingest.py:79-80 | ingesting the last file keeps every name that the earlier files indexed |
| Ingest.LastFileIndexed | scripts/ingest.py:79-80 | the last listed file, when productive, is indexed after the loop |
| Ingest.ProductiveFileIndexed | scripts/ingest.py:79-80 | every productive listed file is indexed after the loop |
| Ingest.ProductiveFilesIndexed | scripts/ingest.py:70-80 | after ingest_all_documents, the name of every listed file that loads and splits into at least one node is indexed |
| Ingest.StableWhenIndexed | scripts/ingest.py:70-80 | a directory whose productive files are all indexed leaves the store unchanged |
| Ingest.IngestAllTwiceAddsOnce | scripts/ingest.py:70-80 | running ingest_all_documents twice over the same directory changes nothing the second time |
| RetrievalAgent.NonBlankStr | agents/retrieval_agent.py:71 | definition of `isinstance(val, str) and val.strip()`; properties in FirstNonBlankIndexIsFirst and StripProperties |
| RetrievalAgent.TasksOf | agents/retrieval_agent.py:68 | definition of `getattr(out, "tasks_output", []) or []`; properties in CollectParts and Normalize |
| RetrievalAgent.FirstNonBlank | agents/retrieval_agent.py:69-73 | definition; properties in FirstNonBlankIndexIsFirst and FirstNonBlankStripped |
| RetrievalAgent.PartOf | agents/retrieval_agent.py:68-73 | definition; properties in PartsOfOne and FirstPart |
| RetrievalAgent.FirstNonBlankIndexIsFirst | agents/retrieval_agent.py:69-73 | the attribute chosen is the first of raw, output, result, final_output that is a non-blank string |
| RetrievalAgent.Parts | agents/retrieval_agent.py:67-73 | there is at most one part per task output |
| RetrievalAgent.PartsAppend | agents/retrieval_agent.py:67-73 | the parts follow task order: the parts of consecutive task lists concatenate |
| RetrievalAgent.PartsOfOne | agents/retrieval_agent.py:68-73 | definition unfolding: a single task contributes its first non-blank string attribute, stripped, or nothing |
| RetrievalAgent.FirstNonBlankStripped | agents/retrieval_agent.py:71-72 | a chosen part is non-empty and neither starts nor ends with whitespace |
| RetrievalAgent.PartsAreStripped | agents/retrieval_agent.py:67-73 | every part is a stripped non-blank string |
| RetrievalAgent.Normalized | agents/retrieval_agent.py:60-78 | definition; properties in NormalizedCases, FallbackToRepr, NormalizedNotBlank and Normalize |
| RetrievalAgent.TaskDescription | agents/retrieval_agent.py:42-46 | definition; properties in DescriptionEmbedsArguments |
| RetrievalAgent.NormalizedCases | agents/retrieval_agent.py:62-78 | definition unfolding: a non-blank string raw is returned unchanged, not stripped; otherwise the parts joined by "\n\n" when there is any part; otherwise str(out) |
| RetrievalAgent.FallbackToRepr | agents/retrieval_agent.py:78 | when neither raw nor any task attribute is a non-blank string, the result is str(out) |
| RetrievalAgent.NoParts | agents/retrieval_agent.py:67-73 | task outputs without any non-blank string attribute give no parts |
| RetrievalAgent.NormalizedNotBlank | agents/retrieval_agent.py:62-78 | the result is blank only if it is str(out) |
| RetrievalAgent.DescriptionEmbedsArguments | agents/retrieval_agent.py:42-45 | the task description contains the question, top_k and return_sources literally, in the `{"question": …, "top_k": …, "return_sources": …}` fields |
| RetrievalAgent.FirstPart | agents/retrieval_agent.py:69-73 | the inner loop with its break yields exactly the task's part |
| RetrievalAgent.CollectParts | agents/retrieval_agent.py:67-73 | the nested loop collects exactly the parts, in task order |
| RetrievalAgent.Normalize | agents/retrieval_agent.py:60-78 | the early-return cascade yields exactly the normalized text |
| RetrievalAgent.Execute | agents/retrieval_agent.py:39-78 | execute (defaults top_k=3, return_sources=2) runs the crew on the task description for its arguments and returns the normalization of the crew's output |
| ChatServer.Wire | main.py:104 | every data frame starts with "data: " and ends with a blank line |
| ChatServer.TokenChunk | main.py:97-103 | definition; properties in EventShape |
| ChatServer.StopChunk | main.py:107-113 | definition; properties in EventShape |
| ChatServer.Events | main.py:94-115 | definition; properties in EventCount, EventShape and ReassembleRoundTrip |
| ChatServer.EventCount | main.py:94-115 | the stream has one event per line of the reply plus two; an empty reply gives only the stop chunk and [DONE] |
| ChatServer.EventShape | main.py:96-115 | every chunk has id "chatcmpl-123", object "chat.completion.chunk", index 0, the request's model and its own clock reading; the token chunks come first, in line order, each with its line plus a space and no finish reason; then one stop chunk with an empty delta and finish reason "stop"; then [DONE] |
| ChatServer.ReassembleTokens | main.py:96-104 | deltas that are each token plus a space, followed by events with no content, give back the tokens' concatenation |
| ChatServer.ReassembleRoundTrip | main.py:95-104 | the stream is lossless: dropping the trailing space of each delta and concatenating them gives back the reply |
| ChatServer.EventStream | main.py:94-115 | the frames are exactly the wire form of the specified events, one per event, in order |
| ChatServer.AskQuestion | main.py:68-76 | an empty message list gives the error result and asks nothing; otherwise the tool is asked about the last message's content with top_k=20 and return_sources=3, and the answer is streamed |
| Py.Get | agent/retrieval_tool.py:46 | `d.get(k)` finds a value exactly when some item has key k |
| Py.Truthy | agent/retrieval_tool.py:46 | definition of truthiness; properties in DisplayNameFallback |
| Py.ToStr | scripts/ingest.py:21 | definition of str() of a value; properties in SectionValueListed and SerializedContainsValue |
| Py.GetOr | scripts/ingest.py:22 | definition of `d.get(k, default)`; properties in SectionPathWithoutSections |
| Py.Set | scripts/ingest.py:62-63 | definition of `d[k] = v`; properties in SetGet, SetShape and SetKeepsKeysUnique |
| Py.SetGet | scripts/ingest.py:62-63 | after `d[k] = v`, k maps to v and every other key keeps its value |
| Py.SetShape | scripts/ingest.py:62-63 | `d[k] = v` keeps every key in its place; the dict grows by one exactly when k is new, and a new key goes last |
| Py.SetKeepsKeysUnique | scripts/ingest.py:62-63 | item assignment keeps the keys distinct |
| Strings.Join | scripts/ingest.py:21 | definition of `sep.join`; properties in JoinContains and JoinEmpty |
| Strings.JoinEmpty | scripts/ingest.py:21-22 | with a non-empty separator, the join is empty exactly when there are no parts or a single empty one |
| Strings.Contains | scripts/ingest.py:21 | definition of `in` on strings; properties in ContainsAt and ContainsTransitive |
| Strings.Lower | scripts/ingest.py:21 | definition of lower(), ASCII letters only |
| Strings.IsSpace | agents/retrieval_agent.py:63 | definition of Python's whitespace set for `str.isspace`; properties in LStrip, RStrip and StripProperties |
| Strings.Strip | agents/retrieval_agent.py:63 | definition of strip(); properties in StripProperties |
| Strings.Take | agent/retrieval_tool.py:48 | definition of `s[:n]`; properties in Snippet |
| Strings.FlattenNewlines | agent/retrieval_tool.py:48 | definition of `replace("\n", " ")`; properties in Snippet |
| Strings.IntToString | agents/retrieval_agent.py:44 | definition of str() of an integer; properties in IntToStringRoundTrip |
| Strings.SplitLines | main.py:95 | the reply has no lines exactly when it is empty; there are no more lines than characters, and no line is empty |
| Strings.SplitLinesConcat | main.py:95 | `splitlines(keepends=True)` is lossless: its lines concatenate back to the input |
| Strings.IsLineBreak | main.py:95 | definition of the boundaries `str.splitlines` recognises; properties in SplitLinesShape |
| Strings.SplitLinesShape | main.py:95 | each line holds a line boundary only as its terminator ("\r\n" counting as one), and every line but the last ends with one |
| Strings.SplitLinesKeepsCrLf | main.py:95 | a "\r\n" pair is never split: a line ending in "\r" is never followed by one starting with "\n" |
| Strings.LStrip | agents/retrieval_agent.py:71-72 | lstrip removes exactly the longest all-whitespace prefix |
| Strings.RStrip | agents/retrieval_agent.py:71-72 | rstrip removes exactly the longest all-whitespace suffix |
| Strings.StripProperties | agents/retrieval_agent.py:63 | strip() is empty exactly for a blank string; otherwise it has no whitespace at either end; stripping is idempotent |
| Strings.IntToStringRoundTrip | agents/retrieval_agent.py:44 | str() of an integer loses nothing: parsing it back gives the integer |

## Left out

- FastAPI application, CORS middleware, startup and the other routes
  (`/api/ragas`, `/v1/models`). This is HTTP plumbing. Startup also reads
  secrets and registers tracing.
- `ask_question` called before startup, when the tool is still `None`, is not
  modelled. The model's endpoint is always given a tool.
- `time.time()`, `json.dumps` and `asyncio.sleep` in `event_stream` are not
  modelled as such. The clock and the chunk encoder are parameters, and the
  sleep has no observable effect on the frames.
- ChatServer.Events: the model flattens each chunk's single `choices` entry
  into the chunk record. It does not state the JSON layout.
- Exceptions are not modelled: the query engine, the loader and the vector
  store are total here. RetrievalTool.ContextualRetrievalTool.Run,
  Ingest.IngestDocument and Ingest.IngestAll therefore always return. In the
  source, `query` (agent/retrieval_tool.py:37), the database calls
  (scripts/ingest.py:32-38), `load_data` (53) and the index build (66) can
  raise, and nothing catches the error. A failing file ends
  `ingest_all_documents` (79-80), so the files after it are never ingested.
- The progress messages that `_run` and the ingestion script print
  (agent/retrieval_tool.py:31; scripts/ingest.py:46, 49, 55, 68, 77) are
  output only and are not modelled.
- RetrievalTool.ContextualRetrievalTool.Run uses the corrected slice
  `CappedPrefix`, not Python's `[:k]`. For a negative min(return_sources,
  cap) it cites no source, where the source as written cites all but the last
  -k nodes. `PySliceTo` models the slice as written, and
  `NegativeRequestBypassesCap` shows the difference (see Findings). For
  k >= 0 the two agree (`CappedPrefixAgrees`).
- RetrievalTool.FormatResponse and RetrievalTool.Shape loop over and are
  defined by the same corrected slice, with the same difference for a
  negative k.
- The crew itself (agents, tasks, language model, `kickoff`) is a function
  parameter. The task's expected-output text and the agent constructor are
  CrewAI wiring.
- CrewAI's `BaseTool.run` is taken to call `_run` with the same arguments.
  Its argument validation is not modelled.
- The query engine, reranking, embedding and the language model are a
  function from question to response. Scores are opaque strings, because they
  are floats or `None` rendered by Python.
- psycopg2 connections and `PGVectorStore` persistence are a `VectorStore`
  object holding the metadata of its rows.
- Ingest.Serialize stands in for the stored JSON text of a row: every key
  with the `str()` of its value, and no escaping.
  - The real column also holds keys the vector store adds.
  - JSON escapes `"`, `\` and control characters. With its default ASCII-only
    output it also writes every non-ASCII character as `\uXXXX`.
  - JSON writes `None`, `True` and numbers as `null`, `true` and bare
    numbers, where the stand-in writes their `str()`.
  - So the LIKE results are exact only for names that JSON writes as they
    are. The skip lemmas (`IngestTwiceAddsOnce`, `IngestAllTwiceAddsOnce` and
    those under them) therefore require names of printable ASCII without `"`
    or a backslash. A name with a non-ASCII character would never match its
    own row, so it would be ingested again on every run.
- The loader and the sentence splitter are inputs: each directory entry
  carries the documents its load yields and the chunks its split yields.
  Chunk size 512 and overlap 50 are recorded as constants only.
- Ingest.PathJoin: `os.path.join` with an absolute second argument (which
  discards the directory) is not modelled. Names from a directory listing are
  never absolute.
- Ingest.Contextualize requires distinct node objects. The splitter always
  yields fresh nodes, and `MakeNodes` proves they are distinct.
- Strings.Lower maps ASCII letters only. Python's `lower()` also maps
  non-ASCII letters, which only matters for metadata keys that are not ASCII.
- RetrievalAgent.Parts: its own contract only bounds the count. What the
  parts are is stated by `PartsOfOne`, `PartsAppend` and `PartsAreStripped`.
- The evaluation harness (ragas_local/eval_local.py), the query-engine factory
  (`get_query_engine`) and agent/retrieval_agent.py (CrewAI wiring only) are
  not part of this model.

## Findings

| source | as written | input that shows it | evidently intended | confidence | as-written member | corrected member |
|---|---|---|---|---|---|---|
| agent/retrieval_tool.py:41-44 | `k = min(return_sources, cap)` then `source_nodes[:k]`; with a negative `k`, Python's slice drops the last `-k` nodes instead of taking none | `return_sources = -1`, cap 3, 10 source nodes: `k = -1`, and 9 sources are cited | sources bounded by both the request and the cap, so none when the request is not positive | high; not executed | RetrievalTool.NegativeRequestBypassesCap | RetrievalTool.CappedPrefix |
