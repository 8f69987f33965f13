# PDF document processing pipeline — a Dafny model

This project models the document-processing core of a Django application. The application
stores uploaded PDFs and answers three kinds of request about a document: a summary, a
detailed analysis, or a set of test questions. The core is the class `DocumentProcessor` in
`backend/myapp/ai_service.py`, and it works in these steps:

- It resolves the active API configuration from the database row, the environment
  variables, or the simulation defaults.
- It cleans the extracted text and splits it into chunks of about 400 characters, breaking
  at the sentence terminators 。！？.
- It embeds the chunks and writes a per-document FAISS index together with a JSON file of
  the chunks.
- It builds a task-specific prompt from the leading chunks.
- It calls an OpenAI-style chat API, or returns canned replies in simulation mode.
- `process_document` ties these steps together.

Two small helpers of `backend/myapp/models.py` are modelled as well: the storage path of an
uploaded PDF, and the displayed file name.

Everything is modelled with pure functions over immutable values:

| file | module | models |
|---|---|---|
| `common.dfy` | `Common` | `Option` |
| `strings.dfy` | `Strings` | Python string built-ins the core uses: `isspace`, `strip`, `rstrip('/')`, `split`, `join`, `in`, and decimal formatting of an `int` |
| `cleaning.dfy` | `Cleaning` | `clean_text` |
| `chunking.dfy` | `Chunking` | `chunk_text` |
| `config.dfy` | `Config` | `_get_active_config` |
| `embeddings.dfy` | `Embeddings` | `get_embeddings`, reduced to the shape of its result |
| `vectorstore.dfy` | `VectorStore` | `create_faiss_index` and `search_similar_chunks` over a map from document id to the two index files |
| `completion.dfy` | `Completion` | `call_llm_api` and the three canned replies |
| `prompts.dfy` | `Prompts` | the three `_create_*_prompt` builders |
| `pipeline.dfy` | `Pipeline` | `process_document` |
| `uploads.dfy` | `Uploads` | `pdf_upload_path` and `PDFDocument.filename` |

The outside world appears as explicit parameters:

- **Extracted text.** The text PyPDF2 extracts is a string argument.
- **Database and environment.** The database query is a value: it failed, or it returned an
  optional row. The environment is a pair of optional strings.
- **HTTP endpoints.** Each endpoint is a function from the request record to a reply
  datatype. The reply carries the status, the decoded body and the raw text, or the
  exception `requests` raised.
- **Random vectors.** The random vectors of simulation mode come from a function `rand`.
- **FAISS search.** The search is an opaque function from the stored vectors, the query
  vectors and `top_k` to the list of (score, index) hits. It returns `None` when it raises.
- **Index directory.** The directory is a value, `Store`, and every operation returns the
  store it leaves behind.

## Behaviours of the code worth knowing

The lemmas named below state each of these behaviours.

- **Empty input to the chunker.** `chunk_text("")` returns `["。"]`, not an empty list
  (`Chunking.EmptyTextChunks`). Text of whitespace only passes the emptiness test of
  `process_document` and becomes that single chunk (`Pipeline.BlankTextSingleChunk`). Text
  ending in a terminator gets a last chunk that is "。" or ends in "。。"
  (`Chunking.TrailingTerminator`). The last chunk is "。" alone when the buffer reached
  `chunk_size` just before the final empty fragment.
- **Cleaning is not idempotent.** `clean_text` is not idempotent
  (`Cleaning.CleanNotIdempotent`). It is idempotent exactly on the results without two
  adjacent spaces (`Cleaning.CleanFixpointIff`), and on every input made of allowed
  characters only (`Cleaning.CleanIdempotentOnAllowed`).
- **Quotes in the allow-list.** The allow-list keeps the ASCII `"`. It drops the ASCII `'`,
  because the character class is written as two adjacent string literals.
- **Out-of-range search indices.** The search guard `idx < len(chunks)` lets FAISS's "no
  result" index `-1` through, and that hit reads the last chunk
  (`VectorStore.MinusOneGivesLastChunk`). An index below `-len(chunks)` raises inside the
  `try`, so the whole search returns `[]` (`VectorStore.OutOfRangeVoidsSearch`).
- **Unknown task type.** An unknown task type is rejected only after the index step, which
  may already have embedded the text and written the index (`Pipeline.UnknownTaskAfterIndex`).
- **Database row with an empty URL.** An active database row with a key switches simulation
  off even when its base URL is empty (`Config.DatabaseEmptyUrlIsLive`).
- **Environment URL `"/"`.** Simulation is decided on the raw environment URL, so the URL
  `"/"` means live mode with an empty base URL (`Config.SlashUrlIsLive`).
- **Embeddings of the wrong width.** Live embeddings of the wrong width make
  `create_faiss_index` raise. Nothing in `process_document` catches that exception
  (`VectorStore.CreateIndex`, status `Raised`; `Pipeline.ProcessDocument`, outcome
  `Exception`).

## Model

| member | source | states |
|---|---|---|
| Strings.Strip | backend/myapp/ai_service.py:93 | `strip()` leaves no whitespace at either end and removes only whitespace: the result is a slice of the input with whitespace only outside it |
| Strings.RStripChar | backend/myapp/ai_service.py:28 | `rstrip('/')` gives a prefix of the input that does not end in '/', followed in the input by slashes only |
| Strings.SplitOn | backend/myapp/ai_service.py:97 | `re.split` on a character class yields at least one field, no field holds a separator, a text without separators is its own single field, and a single field is the whole text; `Strings.SplitJoin` and `Strings.JoinSplit` show it inverts joining |
| Strings.SplitJoin | backend/myapp/ai_service.py:97 | splitting the join of separator-free fields on the separator gives the fields back |
| Strings.JoinSplit | backend/myapp/ai_service.py:97 | joining the fields of a split with one character gives the text with every separator replaced by that character |
| Strings.LastFieldSpec | backend/myapp/models.py:20 | `split(sep)[-1]` is the separator-free suffix that is either the whole string or starts right after a separator |
| Strings.LastFieldUnique | backend/myapp/models.py:20 | at most one string is the last field of a given string |
| Strings.LastFieldOfPlain | backend/myapp/models.py:20 | a string without any separator is its own last field |
| Strings.ContainsJoin | backend/myapp/ai_service.py:380 | a string without the joining character occurs in a join exactly when it occurs in one of the joined parts |
| Strings.NatToStringRoundTrip | backend/myapp/ai_service.py:380 | the decimal digits written for `i+1` read back as `i+1` |
| Cleaning.Collapse | backend/myapp/ai_service.py:91 | `re.sub(r'\s+', ' ', text)`: the only whitespace left is single plain spaces, the result is empty exactly when the input is, and it starts with a space exactly when the input starts with whitespace |
| Cleaning.KeepAllowed | backend/myapp/ai_service.py:92 | the character filter keeps only allowed characters, and what it keeps is a subsequence of its input |
| Cleaning.KeepAllowedChar | backend/myapp/ai_service.py:92 | a single character is kept exactly when it is allowed |
| Cleaning.KeepAllowedAppend | backend/myapp/ai_service.py:92 | the filter distributes over concatenation, so with `KeepAllowedChar` every allowed character is kept, in place and in order |
| Cleaning.CleanText | backend/myapp/ai_service.py:89-93 | the cleaned text has no whitespace at either end, its only whitespace is ' ', every character is allowed, and it is a subsequence of the whitespace-collapsed input |
| Cleaning.CollapseKeepsText | backend/myapp/ai_service.py:91 | the collapse keeps every non-whitespace character, in order |
| Cleaning.CollapseRun | backend/myapp/ai_service.py:91 | a maximal whitespace run becomes one ' ' exactly where the run was, in front of the collapsed rest |
| Cleaning.CollapseWord | backend/myapp/ai_service.py:91 | a non-whitespace character is copied in place, in front of the collapsed rest |
| Cleaning.NonSpaceKeepAllowed | backend/myapp/ai_service.py:91-92 | removing whitespace and removing disallowed characters can be done in either order |
| Cleaning.CleanKeepsText | backend/myapp/ai_service.py:89-93 | the non-whitespace characters of the cleaned text are exactly the allowed non-whitespace characters of the input, in order |
| Cleaning.CollapseFixpoint | backend/myapp/ai_service.py:91 | the collapse leaves text with only single plain spaces unchanged |
| Cleaning.KeepAllowedNoop | backend/myapp/ai_service.py:92 | the filter leaves the text unchanged exactly when every character is allowed |
| Cleaning.BlankCleansToEmpty | backend/myapp/ai_service.py:89-93 | text of whitespace only cleans to the empty string |
| Cleaning.CleanFixpointIff | backend/myapp/ai_service.py:89-93 | cleaning a cleaned text again changes nothing exactly when it has no two adjacent spaces |
| Cleaning.CleanIdempotentOnAllowed | backend/myapp/ai_service.py:89-93 | on text made only of allowed characters, cleaning twice equals cleaning once |
| Cleaning.CleanNotIdempotent | backend/myapp/ai_service.py:91-92 | "a \x01 b" cleans to "a  b" and then to "a b", so cleaning is not idempotent |
| Chunking.ChunkText | backend/myapp/ai_service.py:95-112 | `chunk_text` never returns an empty list, and every chunk is non-empty and ends with "。" |
| Chunking.Sentences | backend/myapp/ai_service.py:97 | the split on "。！？" gives at least one fragment, none holds a terminator, and rejoining them with "。" gives the text with every terminator written as "。" |
| Chunking.Pack | backend/myapp/ai_service.py:98-110 | the chunks already emitted stay a prefix of the result, each fragment adds at most one chunk and the final flush at most one more, and a non-empty buffer or any fragment left gives at least one new chunk; `Chunking.PackIsGroup` and `Chunking.PackingIsGreedy` characterise the chunks themselves |
| Chunking.PackIsGroup | backend/myapp/ai_service.py:100-110 | the loop over the fragments computes the rendering of a grouping of the fragments |
| Chunking.PackingIsGreedy | backend/myapp/ai_service.py:101-107 | the groups concatenate to the fragments, none is empty, a fragment joins the open group exactly when the buffer plus the fragment stays under the size, and a new group starts exactly when it would not |
| Chunking.ChunksAreRendered | backend/myapp/ai_service.py:95-112 | the chunks are the stripped buffers of the greedy grouping of the split fragments |
| Chunking.ChunkOrder | backend/myapp/ai_service.py:97-112 | the buffers before stripping, concatenated in order, give the text with every terminator written as "。", followed by one more "。" |
| Chunking.ChunkSoftBound | backend/myapp/ai_service.py:101-107 | every chunk is at most `chunk_size` long, unless it holds a single fragment of at least `chunk_size` characters |
| Chunking.GroupSoftBound | backend/myapp/ai_service.py:101-107 | the same bound for each group of any greedy grouping |
| Chunking.ShortTextSingleChunk | backend/myapp/ai_service.py:95-112 | text shorter than `chunk_size` gives one chunk: the normalised text plus "。", stripped |
| Chunking.EmptyTextChunks | backend/myapp/ai_service.py:97-112 | the empty text gives the single chunk "。" |
| Chunking.TrailingTerminator | backend/myapp/ai_service.py:97-110 | a text ending in a terminator gives a last chunk that is "。" or ends in "。。" |
| Chunking.LastSentenceEmpty | backend/myapp/ai_service.py:97 | after a final terminator the split yields one empty fragment |
| Chunking.ShortPlainText | backend/myapp/ai_service.py:95-112 | a short text with no terminator or leading whitespace gives the one chunk text + "。" |
| Chunking.TwoSentencesOneChunk | backend/myapp/ai_service.py:95-112 | "人工智能正在改变世界。它影响教育、医疗和交通。" with size 400 gives that text plus "。" as its only chunk |
| Config.FromEnvironment | backend/myapp/ai_service.py:39-58 | the environment branches use the default model names, temperature 0.7 and 2000 tokens, and the URL without trailing slashes |
| Config.ResolveConfig | backend/myapp/ai_service.py:19-74 | the base URL never ends in '/'; an active row with a key gives live mode with the row's fields; otherwise simulation is on exactly when the environment key or URL is missing or empty; the no-row simulation branch blanks key and URL; after a failed query the key is the environment's or "" |
| Config.BaseUrlIsStripped | backend/myapp/ai_service.py:28-67 | the base URL is the configured one with its trailing slashes removed |
| Config.LiveHasKey | backend/myapp/ai_service.py:19-74 | whenever live mode is chosen, the API key is non-empty |
| Config.DatabaseEmptyUrlIsLive | backend/myapp/ai_service.py:25-34 | an active row with a key and an empty base URL still selects live mode |
| Config.SlashUrlIsLive | backend/myapp/ai_service.py:39-58 | the environment URL "/" selects live mode with an empty base URL |
| Config.FailureMatchesNoRow | backend/myapp/ai_service.py:35-74 | a failed query and a query without a usable row agree on the mode, and on the whole configuration in live mode |
| Embeddings.EmbeddingRequestFor | backend/myapp/ai_service.py:122-139 | the embedding request goes to `{base_url}/embeddings` with the bearer key, the embedding model and the texts |
| Embeddings.GetEmbeddings | backend/myapp/ai_service.py:114-154 | simulation gives one 1536-wide vector per text; live mode gives a result exactly when the reply is status 200 with a `data` list, and then that list |
| Embeddings.SimulationIgnoresTransport | backend/myapp/ai_service.py:118-120 | simulation mode never consults the embedding endpoint |
| Embeddings.LiveShapeUnchecked | backend/myapp/ai_service.py:141-144 | the live vectors are returned as they come, whatever their number or width |
| VectorStore.CreateIndex | backend/myapp/ai_service.py:156-176 | nothing is written unless the build succeeds; empty chunks are declined; success happens exactly when the embeddings are a non-empty list of 1536-wide vectors, and writes both files of that id only; a non-empty list of another width raises |
| VectorStore.SimulatedBuildSucceeds | backend/myapp/ai_service.py:156-176 | in simulation mode a build of non-empty chunks always succeeds, with one vector per chunk |
| VectorStore.FailedEmbeddingDeclines | backend/myapp/ai_service.py:161-163 | an embedding reply with an error status makes the build return False without writing |
| VectorStore.PyIndex | backend/myapp/ai_service.py:202 | `chunks[idx]` succeeds exactly for `-len <= idx < len`, counting from the end for negative indices |
| VectorStore.PostFilter | backend/myapp/ai_service.py:199-206 | the result loop gives at most one result per engine hit; `VectorStore.PostFilterSpec` states exactly when it succeeds and which results it gives |
| VectorStore.PostFilterSpec | backend/myapp/ai_service.py:199-206 | the result loop succeeds exactly when no kept index lies below `-len(chunks)`, and then gives, in order, the chunk text and score of every hit with `idx < len(chunks)` |
| VectorStore.PostFilterKeepsOrder | backend/myapp/ai_service.py:199-206 | hits with non-increasing scores give results with non-increasing scores, each score one of the hits' |
| VectorStore.SearchSimilarChunks | backend/myapp/ai_service.py:178-210 | a missing file, a failed or empty query embedding, a query of the wrong width, a raising engine or an out-of-range index gives `[]`; otherwise the answer is the filtered engine answer over the stored vectors and chunks, and a non-empty answer is always such |
| VectorStore.SearchResolvesHits | backend/myapp/ai_service.py:196-206 | on a built index, engine hits that are all in range give exactly the hits passing `idx < len(chunks)`, in order, each with the chunk Python indexing selects and its score |
| VectorStore.SearchAtMostTopK | backend/myapp/ai_service.py:196-206 | with an engine that returns at most `top_k` hits, the search returns at most `top_k` results |
| VectorStore.MinusOneGivesLastChunk | backend/myapp/ai_service.py:199-204 | the "no result" index -1 passes the guard and yields the last chunk |
| VectorStore.OutOfRangeVoidsSearch | backend/myapp/ai_service.py:199-210 | a hit below `-len(chunks)` raises inside the loop, and the whole search returns `[]` |
| VectorStore.BuildThenSearch | backend/myapp/ai_service.py:156-206 | after a successful build, a search of the same id reads back the chunks just stored |
| Completion.MocksDistinct | backend/myapp/ai_service.py:223-230 | the four canned replies are pairwise different |
| Completion.SimulatedReply | backend/myapp/ai_service.py:219-230 | the summary reply comes exactly when "总结要点" occurs; the analysis reply exactly when "详细分析" does and the first marker does not; the questions reply exactly when "出题" or "题目" does and neither earlier marker does; the placeholder otherwise |
| Completion.ChatRequestFor | backend/myapp/ai_service.py:216-257 | the chat request goes to `{base_url}/chat/completions` with the bearer key and model, and uses the configured temperature and token limit unless they are given |
| Completion.ReplyText | backend/myapp/ai_service.py:259-289 | a 200 reply with a first choice yields its content; a timeout and a connection error yield their own fixed messages; another exception, an unparsable 200 body or a first choice without content yields "调用AIHubMix API失败: " and the exception text; a 200 body without choices yields "API响应格式异常: " and the printed body; any other status yields "AIHubMix API错误: " followed by the error message, the printed error member, or the raw text |
| Completion.CallLlm | backend/myapp/ai_service.py:212-289 | simulation returns the canned reply the prompt's keywords select (`SimulatedReply`); live mode returns what `ReplyText` makes of the reply to the request built from the configuration, the completion when there is one and an error string otherwise, never raising |
| Completion.DefaultsFromConfig | backend/myapp/ai_service.py:216-217 | leaving out temperature and token limit equals passing the configured values |
| Completion.SimulationIgnoresTransport | backend/myapp/ai_service.py:219-230 | simulation mode ignores the chat endpoint and the sampling parameters |
| Completion.ErrorMessageShown | backend/myapp/ai_service.py:268-278 | a non-200 reply with `{"error": {"message": m}}` yields "AIHubMix API错误: " + m |
| Completion.CompletionMimicsTimeout | backend/myapp/ai_service.py:259-285 | a completion whose text equals the timeout message cannot be told apart from a timeout |
| Prompts.Window | backend/myapp/ai_service.py:380 | `chunks[:n]` is the longest prefix of at most `n` chunks |
| Prompts.PromptUsesWindowOnly | backend/myapp/ai_service.py:378-400 | chunks after the window do not affect the prompt |
| Prompts.ContextLines | backend/myapp/ai_service.py:380 | when no chunk holds a newline, splitting the context on newlines gives one line per listed chunk, the k-th being `k+1`, ". ", and chunk k |
| Prompts.LineNumber | backend/myapp/ai_service.py:380 | the number in front of the k-th listed chunk reads as k+1 |
| Prompts.PromptContains | backend/myapp/ai_service.py:382-399 | a keyword occurs in a prompt exactly when it occurs in the instruction line, in a listed chunk, or in the format lines |
| Prompts.ContextContains | backend/myapp/ai_service.py:380 | the numbering cannot create a keyword: a keyword occurs in the context exactly when it occurs in a listed chunk |
| Prompts.SummaryPrompt | backend/myapp/ai_service.py:378-400 | the summary prompt over the first ten chunks, an instance of `Prompts.Prompt`; for it `Prompts.PromptContains` says which keywords it holds, `Prompts.ContextLines` how its context lists the chunks, `Prompts.PromptUsesWindowOnly` that later chunks do not matter, and `Prompts.SummaryPromptReply` how the simulated model answers it |
| Prompts.AnalysisPrompt | backend/myapp/ai_service.py:402-424 | the analysis prompt over the first fifteen chunks; characterised by the same three lemmas and by `Prompts.AnalysisPromptReply` |
| Prompts.QuestionsPrompt | backend/myapp/ai_service.py:426-457 | the questions prompt over the first twelve chunks; characterised by the same three lemmas and by `Prompts.QuestionsPromptReply` |
| Prompts.SummaryPromptReply | backend/myapp/ai_service.py:378-400 | in simulation the summary prompt always gets the canned summary |
| Prompts.AnalysisPromptReply | backend/myapp/ai_service.py:402-424 | in simulation the analysis prompt gets the canned summary when a listed chunk mentions "总结要点", else the canned analysis |
| Prompts.QuestionsPromptReply | backend/myapp/ai_service.py:426-457 | in simulation the questions prompt gets the canned summary when a listed chunk mentions "总结要点", else the canned analysis when one mentions "详细分析", else the canned questions |
| Pipeline.TaskPrompt | backend/myapp/ai_service.py:366-373 | a prompt exists exactly for the task names "summary", "analysis" and "questions" |
| Pipeline.Answer | backend/myapp/ai_service.py:366-376 | the task step always returns and never touches the store, and a task without a prompt gives "未知的任务类型" |
| Pipeline.AnswerKnownTask | backend/myapp/ai_service.py:366-376 | on "summary", "analysis" or "questions" the task step returns the model's reply to that task's prompt |
| Pipeline.ProcessDocument | backend/myapp/ai_service.py:352-376 | empty text returns "无法从PDF提取文本" untouched; an existing index file is never rewritten; a change to the store is a fresh, complete index of exactly this id holding the cleaned chunks, every other index entry is kept and no other id gains one; an exception leaves the store as it was |
| Pipeline.ExistingIndexReused | backend/myapp/ai_service.py:360-364 | with the index file present nothing is written and the embedding endpoint is irrelevant |
| Pipeline.RepeatCallKeepsIndex | backend/myapp/ai_service.py:360-364 | a second call on an indexed document keeps the index of the first, whatever text it brings |
| Pipeline.KnownTaskCallsModel | backend/myapp/ai_service.py:366-376 | with the index in place, a known task returns the model's reply to its prompt over the cleaned chunks |
| Pipeline.UnknownTaskAfterIndex | backend/myapp/ai_service.py:361-373 | on a new document whose build succeeds, live or simulated, an unknown task returns "未知的任务类型" and the store keeps the index just written |
| Pipeline.UnknownTaskOnExistingIndex | backend/myapp/ai_service.py:360-373 | on a document whose index exists, an unknown task returns "未知的任务类型" and the store is unchanged |
| Pipeline.UnknownTaskInSimulation | backend/myapp/ai_service.py:360-373 | in simulation mode an unknown task on a new document returns "未知的任务类型" and leaves a written index |
| Pipeline.BuildFailureMessage | backend/myapp/ai_service.py:362-364 | a declined build returns "创建向量索引失败" and writes nothing |
| Pipeline.EmbeddingErrorFails | backend/myapp/ai_service.py:362-364 | in live mode an embedding error status yields "创建向量索引失败" |
| Pipeline.SimulatedSummary | backend/myapp/ai_service.py:352-376 | in simulation a summary request on non-empty text always returns the canned summary |
| Pipeline.BlankTextSingleChunk | backend/myapp/ai_service.py:355-359 | whitespace-only text passes the emptiness check and becomes the single chunk "。" |
| Uploads.Extension | backend/myapp/models.py:20 | the extension is the text after the last '.', or the whole name when there is none, and holds no '.' |
| Uploads.UploadPath | backend/myapp/models.py:18-21 | the path is "pdfs/", the title, '.', then the extension |
| Uploads.ExtensionKept | backend/myapp/models.py:18-21 | the stored path has the uploaded file's extension |
| Uploads.OnlyExtensionMatters | backend/myapp/models.py:18-21 | the path depends on the uploaded name only through its extension |
| Uploads.NoDotNameIsExtension | backend/myapp/models.py:18-21 | any name without '.' is taken whole as the extension, so the path ends in "." followed by that name |
| Uploads.BaseName | backend/myapp/models.py:32-33 | `filename()` is the text after the last '/' of the stored name |
| Uploads.UploadBaseName | backend/myapp/models.py:18-33 | when neither the title nor the extension holds '/', the base name of the requested path is title + "." + extension |
| Uploads.SlashInTitle | backend/myapp/models.py:18-33 | for any title `a/b` with no '/' in `b` or the extension, the base name of the requested path is `b` + "." + extension: the part of the title up to its last '/' is lost |

## Left out

- PDF text extraction with PyPDF2 (`extract_text_from_pdf`) reads files through a foreign library, so the extracted text is an input.
- HTTP, JSON decoding, timeouts and `time.sleep` are network I/O. Each reply is a datatype value, and each exception is a constructor.
- FAISS internals, float32 conversion, inner-product scoring and `np.random` are floating point, randomness and a foreign library. Only the shape facts are kept: one vector per text, 1536 components each. Search is an opaque engine.
- Embeddings.GetEmbeddings: an item of the live `data` list without `embedding` raises inside the `try`. It is folded into the exception constructor of the reply rather than modelled per item.
- Completion.ReplyText: the strings Python prints for a response body (`repr`) and for an exception (`str(e)`) are inputs, not computed.
- Completion.CallLlm: a `content` that is not a string is not modelled, because the reply type holds strings only.
- Cleaning.IsWordChar: outside ASCII, Python's `\w` is approximated by a list of letter ranges. Every cleaning property is stated against this predicate, so the properties do not depend on the choice.
- Config.ResolveConfig: the code re-reads the configuration inside `get_embeddings` and `call_llm_api`. The model resolves it once per `process_document` call from one snapshot of the database and the environment, so a change between those reads is not modelled.
- `print` logging is not modelled, because it is output only.
- The file writes are modelled as map updates. The race between two concurrent first builds for one id is not modelled, because it is concurrency.
- The `delete_pdf_file` signal handler deletes files, which is file-system I/O.
- The serializers, views, URL routing and the frontend router are framework glue with no logic of their own.
- Django's own adjustment of a stored name that already exists is not part of this model. `UploadPath` is the name requested from storage.
- Uploads.UploadBaseName: the storage layer's `get_valid_name` is not modelled, so the lemma speaks of the requested name. Storage turns spaces into `_` and drops characters other than `-`, `_`, `.` and word characters before the name is stored and shown, so a title "My Report" is shown as "My_Report.pdf". Uploads.SlashInTitle speaks of the requested name for the same reason.
