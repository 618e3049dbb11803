# Medical assistant core, modelled in Dafny

This project models the deterministic core of a retrieval-augmented medical chat assistant, in
three parts.

- **The chunker and ingestion** (`document_processor.py`).
  - `MarkdownProcessor.split_smart` cuts a Markdown book into section-tagged chunks of about
    `CHUNK_SIZE` characters, and carries the last `CHUNK_OVERLAP_LINES` lines into the next chunk.
  - `DocumentEmbedder.process_file` refuses a file that is already stored, embeds every chunk
    long enough to keep, and writes the chunks to the vector store in batches of `BATCH_SIZE`.
- **The search pipeline** (`search.py`).
  - The chat model expands the query into variants.
  - Each variant is recalled from the vector store, with first-seen deduplication.
  - A cross-encoder reranks the pool against the original query.
  - The top `RERANK_TOP_K` passages above `RERANK_THRESHOLD` are kept and formatted.
- **The ReAct reasoning loop** (`app.py`).
  - The model sees the system prompt, a window of the session and the prompt.
  - Each reply is decoded by its markers (`检索:` / `检索：`, `Final Answer`).
  - A no-repeat guard stops the same keyword from being searched twice in a row.
  - After at most `MAX_REASONING_STEPS` replies, one answer is chosen and appended to the session.

The external services are oracle parameters of function type. They are the Ollama chat and
embedding calls, the CrossEncoder, ChromaDB's query and `add_chunks`, and the two debug
formatters `f"{score:.2f}"` and `str(list)`. An exception raised by a service is an
`Option`/`Result`/`QueryReply` value. Each imperative routine is a `method` with the loops of the
source. It is proved equal to a specification function, and the properties are lemmas about that
function.

Modules, one per file:

- `Text` (`text.dfy`): the Python `str` operations used.
- `Config` (`config.dfy`): the constants of `config.py`.
- `Store` (`store.dfy`): the types of the store's answers.
- `DocumentProcessor` (`document_processor.dfy`).
- `Search` (`search.dfy`).
- `ReasoningLoop` (`app.dfy`).

## Model

| member | source | states |
|---|---|---|
| Text.Strip | document_processor.py:43 | `str.strip()`: the result is a contiguous middle of the input with only whitespace (Python's `isspace` set) before and after it, and neither of its ends is whitespace |
| Text.StripBy | document_processor.py:48 | `strip('#')`: the result is a contiguous middle of the input with only the stripped character before and after it, and neither of its ends is that character |
| Text.LStrip | document_processor.py:47 | `lstrip(ch)`: the result is a suffix of the input, every dropped character is strippable, and the first one kept is not |
| Text.JoinSplit | document_processor.py:36 | joining the pieces of `split(sep)` with `sep` gives back the text |
| Text.SplitPiecesFree | search.py:59 | no piece of `split(sep)` contains the separator |
| Text.AfterLast | search.py:62 | `split(sep)[-1]`: a suffix of the text that holds no separator; when the separator occurs, the suffix starts right behind an occurrence; the whole text when the separator is absent |
| Text.BeforeFirst | app.py:167 | `split(sep)[0]`: a prefix of the text that holds no separator and ends right before its first occurrence, and the whole text when it is absent |
| Text.SliceFrom | document_processor.py:70 | `xs[start:]` with Python's clamping: a suffix whose length is `min(-start, len)` for a negative start and `max(len - start, 0)` for a non-negative one; the latter clause, at start 0, makes `[-0:]` keep everything |
| Text.SliceTo | search.py:68 | `xs[:stop]` with Python's clamping: a prefix of length `min(stop, len)` for a non-negative stop |
| DocumentProcessor.HeadingLevel | document_processor.py:47 | the level is the number of leading `#` of the stripped line: at least 1, all of them `#`, and the next character is not `#` |
| DocumentProcessor.PushHeading | document_processor.py:50-53 | the stack keeps its first `min(len, level - 1)` entries, then gets the title on top |
| DocumentProcessor.ScanHeaders | document_processor.py:45-52 | after any lines, `current_headers` is `HeadingPath` of them (`PushHeading` folded over the heading lines), and every emitted section carries `HeadingPath` of exactly the lines it and the sections before it rebuild |
| DocumentProcessor.SectionHeadings | document_processor.py:42-76 | for every text, section `j` carries the heading stack at the moment it is emitted: `HeadingPath` of the input prefix that sections `0..j` rebuild |
| DocumentProcessor.ChunkHeadingPath | document_processor.py:65-66 | chunk `j` is `"【章节：" + " > ".join(path) + "】\n" + "\n".join(body)`, where `path` is `HeadingPath` of the input prefix up to that chunk's end |
| DocumentProcessor.SplitSmart | document_processor.py:20-80 | the line loop returns `Chunks(text, …)`, the fold of `Feed` over the lines followed by the final flush, and at least one chunk; the loop invariant keeps `current_length` equal to the summed length of the buffer |
| DocumentProcessor.ScanInvariant | document_processor.py:42-71 | after any lines, the sections are chained by their overlaps, each emitted section is overfull, and the buffer holds what the sections do not yet account for |
| DocumentProcessor.SectionsInvariant | document_processor.py:42-77 | for every text: at least one section, consecutive sections chained, all but the last emitted when full, and the input lines recovered from the sections |
| DocumentProcessor.SectionsNonEmpty | document_processor.py:36-77 | `split_smart` never returns an empty list |
| DocumentProcessor.NoLineLost | document_processor.py:42-77 | dropping every chunk's carried-over lines and joining the rest with `\n` gives back the document |
| DocumentProcessor.OverlapCarried | document_processor.py:70 | each chunk's body begins with `body[-overlap_lines:]` of the chunk before it, so an overlap of 0 carries the whole buffer |
| DocumentProcessor.EmittedOnlyWhenFull | document_processor.py:56-64 | every chunk but the last was emitted right after a body line (never a heading) took its length past `chunk_size` |
| DocumentProcessor.HeadingNeverEmits | document_processor.py:46-58 | a heading line is buffered and pushed onto the heading stack, and emits nothing |
| DocumentProcessor.ParseHeading | document_processor.py:46-48 | the line of k `#`, a blank and a title is a heading of level k whose title is that title |
| DocumentProcessor.EmptyDocumentChunk | document_processor.py:36-77 | the empty document gives exactly `["【章节：】\n"]` |
| DocumentProcessor.ProcessFile | document_processor.py:119-206 | a file already stored gives `EXIST` with no write; a new file is split and its chunks ingested as `Wrote` states |
| DocumentProcessor.StoreChunks | document_processor.py:155-206 | the batching loop: every write holds 1 to `batch_size` entries, and all but the last are full and were accepted; the entries written are a prefix of the candidates; success writes and counts every candidate; a failure returns the store's error for the last batch |
| DocumentProcessor.CandidatesSpec | document_processor.py:158-176 | the candidates are exactly the chunks of length ≥ 10 whose embedding answered, in chunk order; each has `source=filename`, its index in the chunk list and its embedding |
| DocumentProcessor.CandidatesPrefix | document_processor.py:158-176 | the candidates from fewer chunks are a prefix of those from more: earlier batches stay written before a failed write |
| DocumentProcessor.EmptyContentStoresZero | document_processor.py:145-206 | ingesting the empty document as a new file gives `(True, 0)` and makes no write |
| Search.CleanLine | search.py:62 | a cleaned line holds no `.`, is stripped, and keeps only characters of the line |
| Search.CleanLineAfterLastDot | search.py:62 | a line holding `.` cleans to `line[i + 1..]` stripped, for a `.` at index `i` with no `.` after it |
| Search.CleanLineEndingInDot | search.py:62 | a line ending in `.`, such as `"abc."`, cleans to `""` |
| Search.CleanLineWithoutDot | search.py:62 | a line without `.` is only stripped |
| Search.CleanLinesCleanNonBlank | search.py:61-65 | the comprehension is the cleanup of exactly the non-blank lines, in order |
| Search.NonBlankKeeps | search.py:64 | every line that is not whitespace-only survives the filter |
| Search.Expand | search.py:50-74 | the original query comes first, at most `count` variants follow it, and a failed chat call gives `[query]` |
| Search.ExpandVariants | search.py:59-68 | every element after the query has no `.`, no line break and no surrounding whitespace |
| Search.Rerank | search.py:109-123 | no documents gives `[]` without a prediction; a prediction error is passed on; otherwise the result is descending by score and a permutation of `zip(documents, scores, metadatas)`, as long as the shortest of the three |
| Search.SortStable | search.py:120 | the sort is stable: the documents of any one score keep their input order |
| Search.SortDescending | search.py:120 | the sort orders by descending score |
| Search.UnlabelledHitsUnknownSource | search.py:186-194 | a store reply with documents and an empty metadata list gives one hit per document, in order, and the `{}` padding makes each one's source the `未知来源` default of line 247 |
| Search.MultiRecall | search.py:157-203 | the parallel lists are the documents and metadatas of the deduplicated stream of every variant's hits, and the logs are one warning per variant whose retrieval raised |
| Search.DedupDistinct | search.py:193-198 | no document is recalled twice |
| Search.DedupDocSet | search.py:193-198 | deduplication loses no document and invents none |
| Search.DedupKeepsFirst | search.py:193-198 | the first hit of a document is the one kept, metadata included |
| Search.DedupPrefix | search.py:175-198 | later variants only add at the end: the first-seen order is kept |
| Search.SkippedVariant | search.py:178-180 | a variant with an empty embedding adds no hit and no log line |
| Search.FailedVariant | search.py:200-201 | a variant whose retrieval raised adds no hit and exactly one warning |
| Search.SourceName | search.py:247 | the `source` metadata, or `未知来源` when it is missing or the metadata is empty |
| Search.RecallStage | search.py:223-232 | the log holds the query line, then the expansion line in debug mode, then the recall warnings; the pool is the recall of the expansion |
| Search.FilterStage | search.py:244-258 | the loop keeps the annotated passages of the first `RERANK_TOP_K` documents above the threshold, and in debug mode logs one score line per scored document, in ranking order |
| Search.Search | search.py:205-271 | the method returns `SearchResult`: nothing recalled gives `未找到相关资料。`; a rerank failure gives the error text with the error as the only log; otherwise the kept passages joined by `\n---\n`, or `资料相关度较低，建议补充细节。` |
| Search.SearchOpensWithQuery | search.py:220-271 | every search's first log line is `"🔍 原始查询: " + query`, except a failed rerank, which logs only its error |
| Search.NothingRecalledSkipsRerank | search.py:234-236 | with nothing recalled the answer is `未找到相关资料。` whatever the cross-encoder would answer |
| Search.RerankSeesOriginalQuery | search.py:241 | the cross-encoder is consulted only on the original query paired with the recalled documents |
| Search.KeptIsTop | search.py:246-258 | on a descending ranking, the kept passages are its first ones, all above the threshold and at most `RERANK_TOP_K`; fewer are kept only when nothing further is above the threshold |
| Search.PassingIsTop | search.py:256 | on a descending ranking, the documents above the threshold form a prefix |
| ReasoningLoop.Window | app.py:140-147 | the conversation is the system prompt (a parameter; the session passes `SYSTEM_PROMPT`), the last `min(n, 2 * CONTEXT_HISTORY_TURNS)` session messages, then the prompt |
| ReasoningLoop.WindowBuilt | app.py:140-147 | the message-by-message construction builds `Window` |
| ReasoningLoop.PromptSentTwice | app.py:131-147 | the prompt is already in the session, so it appears as both the last two messages sent |
| ReasoningLoop.Keyword | app.py:165-167 | the keyword is a single line with no surrounding whitespace |
| ReasoningLoop.KeywordAfterLastSplitter | app.py:165-167 | for a reply asking for a search, the splitter occurs at some `i` and not behind it, and the keyword is the first line of the text behind that occurrence, stripped |
| ReasoningLoop.FinalAnswerText | app.py:209 | the final answer has no surrounding whitespace and only holds characters of the reply |
| ReasoningLoop.FinalAnswerAfterLastMarker | app.py:209 | for a concluding reply, `Final Answer` occurs at some `i` and not behind it, and the answer is `c[i + 12..]` with leading `:` then `：` dropped, then stripped |
| ReasoningLoop.DecodeMeaning | app.py:165-217 | a reply asks for a search exactly when it holds `检索:` or `检索：`; it concludes with a `Final Answer` first, else with a direct answer (no `检索`, longer than 20 characters), else not at all |
| ReasoningLoop.StepOnMeaning | app.py:160-205 | a step appends the reply first; a repeated keyword appends the fixed repeat observation without a search; a new keyword is searched once, observed and becomes `last_action` |
| ReasoningLoop.EmptyKeywordIsRepeat | app.py:151-171 | before any search, an empty keyword counts as a repeat: no search, and the repeat observation |
| ReasoningLoop.SearchThenConclude | app.py:165-211 | a reply that asks for a new search and holds `Final Answer` both searches and concludes |
| ReasoningLoop.BareMarkerContinues | app.py:165-217 | a reply that mentions `检索` without a colon and does not conclude neither searches nor ends the loop |
| ReasoningLoop.RunCalls | app.py:153-217 | every remaining step makes one chat call: at least one, at most the fuel, and exactly the fuel when the budget runs out |
| ReasoningLoop.CallsBounded | app.py:153-159 | between 1 and `MAX_REASONING_STEPS` chat calls |
| ReasoningLoop.NoRepeatedSearch | app.py:151-205 | no keyword is searched twice in a row, the empty keyword is never searched first, and `last_action` ends as the last keyword searched |
| ReasoningLoop.Conclude | app.py:208-226 | the answer is never empty and the status is never `Running`; a non-empty `Final Answer` text is answered with `Complete`, a non-empty direct reply with `CompleteDirect`; otherwise the last reply when longer than 10 characters (`Forced`), or `抱歉，我未查到相关资料，未能得出明确结论。` (`NoConclusion`); each status implies its case |
| ReasoningLoop.Fallback | app.py:220-226 | the fallback after the loop has the outcome `Conclude` states |
| ReasoningLoop.Retrieve | app.py:162-205 | the retrieval half of a step computes the conversation, `last_action` and search of `StepOn` |
| ReasoningLoop.Steps | app.py:150-217 | the step loop returns the conversation and last reply of `Run` with the app's decoding, and the answer and status the loop itself sets on each ending |
| ReasoningLoop.Reason | app.py:140-226 | the answer and status are `Conclude` of the reasoning over the windowed session, and the conversation is the one the loop built |
| ReasoningLoop.ChatSession.constructor | app.py:112-116 | a new session holds only the assistant's greeting and uses `SYSTEM_PROMPT` as its system prompt |
| ReasoningLoop.ChatSession.Ask | app.py:129-239 | an empty input changes nothing; otherwise the session gains the prompt and exactly one non-empty assistant message, the answer `Conclude` gives |

## Left out

- The Streamlit UI is not modelled. This covers the sidebar, the upload and delete buttons, the
  status widgets and the chat rendering. It also covers the debug colouring of score lines, which
  parses floats out of log strings (`app.py:179-199`), and the word-by-word streaming of the
  answer.
- The external services are oracle parameters and are not modelled: Ollama, the CrossEncoder,
  ChromaDB, and `database.py`, which wraps ChromaDB.
  - The set of stored file names is a parameter of `DocumentProcessor.ProcessFile`.
  - An exception raised by ChromaDB's `add_chunks` is the store's error reply.
- `clean_md.py` and `convert.py` are not part of this model. They are file converters built on
  regular expressions and pymupdf4llm, outside the logic above.
- Logging, the progress callback and its float fraction, and `uuid.uuid4()` ids are not
  modelled. Entries are identified by their position in the writes.
- Reranker scores are `real` numbers. Float NaN and precision are not modelled.
  - The `:.2f` formatting of a score is the oracle `showScore`.
  - Python's `str` of the variant list is the oracle `showList`.
- DocumentProcessor.ProcessFile: the `EMPTY` answer is unreachable, so the model has no outcome
  for it. `split_smart` always returns a chunk (`DocumentProcessor.SectionsNonEmpty`), and the
  method marks that branch as dead.
- DocumentProcessor.ProcessFile: the model cannot observe that no embedding call happens for a
  file that is already stored. It states instead that nothing is written.
- DocumentProcessor.ParseHeading: the concrete `# A` / `## B` / `## C` example is stated only in
  general form. `ParseHeading` and `PushHeading` together give the path `A > C`.
- ReasoningLoop.Run: the loop's `search` parameter is an oracle returning the observation text.
  It is not composed with `Search.SearchResult`, and its debug logs are dropped.
- ReasoningLoop.Steps: the loop is proved for any reply decoder. `Reason` runs it with `Decode`,
  the decoder of `app.py`.
- ReasoningLoop.Reason: an exception raised by the chat call is not modelled. The app does not
  catch it, so the chat oracle always answers.
- DocumentProcessor.CandidatesSpec: the embedding oracle `embed` is a function of the chunk
  text, so two chunks with the same text get the same answer. A service that fails on one call
  and succeeds on a later call with the same text is not modelled. The same holds for the other
  oracles: the chat model (`chat`, `llm`), the query embedding (`embedQuery`) and the search tool
  (`search`) answer the same input the same way.
