/** `DocumentProcessor.process_document`: clean and chunk the text extracted from the PDF,
    build the document's vector index unless its index file already exists, then ask the
    language model for a summary, an analysis or test questions. */
module Pipeline {
  import opened Common
  import opened Strings
  import Config
  import opened Embeddings
  import opened VectorStore
  import opened Cleaning
  import opened Chunking
  import opened Prompts
  import opened Completion

  const NoTextMessage: string := "无法从PDF提取文本"
  const IndexFailedMessage: string := "创建向量索引失败"
  const UnknownTaskMessage: string := "未知的任务类型"

  const SummaryTask: string := "summary"
  const AnalysisTask: string := "analysis"
  const QuestionsTask: string := "questions"

  /** Everything outside the process that one call consults: the configuration sources, the
      two HTTP endpoints and the random source of simulated embeddings. */
  datatype Services = Services(
    db: Config.DbLookup,
    env: Config.Environment,
    embed: EmbeddingRequest -> EmbeddingReply,
    rand: (nat, nat) -> real,
    chat: ChatRequest -> ChatReply)

  /** The call returned a string, or an exception escaped it; either way with the store as
      it was left. */
  datatype Outcome = Returned(text: string, store: Store) | Exception(store: Store)

  /** The prompt for a task, `None` for an unknown task. */
  function TaskPrompt(task: string, chunks: seq<string>): (p: Option<string>)
    ensures p.Some? <==> task in {SummaryTask, AnalysisTask, QuestionsTask}
  {
    if task == SummaryTask then Some(SummaryPrompt(chunks))
    else if task == AnalysisTask then Some(AnalysisPrompt(chunks))
    else if task == QuestionsTask then Some(QuestionsPrompt(chunks))
    else None
  }

  /** The chunks `process_document` works on. */
  function DocumentChunks(extracted: string): (cs: seq<string>)
    ensures |cs| >= 1
  {
    ChunkText(CleanText(extracted), DefaultChunkSize)
  }

  /** The steps after the index: pick the prompt and call the model. */
  function Answer(store: Store, task: string, chunks: seq<string>, config: Config.Config,
                  chat: ChatRequest -> ChatReply): (r: Outcome)
    ensures r.Returned? && r.store == store
    ensures TaskPrompt(task, chunks).None? ==> r.text == UnknownTaskMessage
  {
    match TaskPrompt(task, chunks)
    case None => Returned(UnknownTaskMessage, store)
    case Some(prompt) => Returned(CallLlm(config, prompt, None, None, chat), store)
  }

  /** `process_document(document_id, pdf_path, task_type)`, with the text the PDF yields
      given as `extracted` (empty when extraction failed). */
  function ProcessDocument(store: Store, id: DocId, extracted: string, task: string,
                           svc: Services): (r: Outcome)
    ensures extracted == "" ==> r == Returned(NoTextMessage, store)
    ensures id in store.indexFiles ==> r.store == store
    ensures r.store != store ==>
      && id !in store.indexFiles && Indexed(r.store, id)
      && r.store.chunkFiles == store.chunkFiles[id := DocumentChunks(extracted)]
      && (forall other :: other != id && other in store.indexFiles ==>
            other in r.store.indexFiles && r.store.indexFiles[other] == store.indexFiles[other])
    ensures forall other :: other in r.store.indexFiles ==> other == id || other in store.indexFiles
    ensures r.Exception? ==> r.store == store && id !in store.indexFiles
  {
    if extracted == "" then Returned(NoTextMessage, store)
    else
      var chunks := DocumentChunks(extracted);
      var config := Config.ResolveConfig(svc.db, svc.env);
      if id in store.indexFiles then Answer(store, task, chunks, config, svc.chat)
      else
        var b := CreateIndex(store, config, id, chunks, svc.embed, svc.rand);
        match b.status
        case Raised => Exception(store)
        case Declined => Returned(IndexFailedMessage, store)
        case Created => Answer(b.store, task, chunks, config, svc.chat)
  }

  // ---------------------------------------------------------------------------------------
  // Properties of the pipeline

  /** An existing index file is reused as it is: nothing is written and the embedding
      service is not consulted. */
  lemma ExistingIndexReused(store: Store, id: DocId, extracted: string, task: string,
                            svc: Services, embed: EmbeddingRequest -> EmbeddingReply)
    requires id in store.indexFiles
    ensures var r := ProcessDocument(store, id, extracted, task, svc);
      && r.store == store
      && r == ProcessDocument(store, id, extracted, task, svc.(embed := embed))
  {
  }

  /** Once a call has left an index for the document, a second call behaves as an index
      hit: the store keeps what the first call wrote, whatever text the second call brings.
      A corollary of `ProcessDocument`'s index-reuse clause. */
  lemma RepeatCallKeepsIndex(store: Store, id: DocId, first: string, second: string,
                             task: string, svc: Services)
    requires id in ProcessDocument(store, id, first, task, svc).store.indexFiles
    ensures var s1 := ProcessDocument(store, id, first, task, svc).store;
      ProcessDocument(s1, id, second, task, svc).store == s1
  {
  }

  /** A known task, once the index is in place, returns the model's reply to that task's
      prompt over the cleaned and chunked text. */
  lemma KnownTaskCallsModel(store: Store, id: DocId, extracted: string, task: string,
                            svc: Services)
    requires extracted != "" && task in {SummaryTask, AnalysisTask, QuestionsTask}
    requires id in store.indexFiles
      || CreateIndex(store, Config.ResolveConfig(svc.db, svc.env), id,
                     DocumentChunks(extracted), svc.embed, svc.rand).status == Created
    ensures var r := ProcessDocument(store, id, extracted, task, svc);
      var prompt := if task == SummaryTask then SummaryPrompt(DocumentChunks(extracted))
                    else if task == AnalysisTask then AnalysisPrompt(DocumentChunks(extracted))
                    else QuestionsPrompt(DocumentChunks(extracted));
      r.Returned? && r.text == CallLlm(Config.ResolveConfig(svc.db, svc.env), prompt, None, None, svc.chat)
  {
    var chunks := DocumentChunks(extracted);
    var config := Config.ResolveConfig(svc.db, svc.env);
    var s1 := if id in store.indexFiles then store
              else CreateIndex(store, config, id, chunks, svc.embed, svc.rand).store;
    assert ProcessDocument(store, id, extracted, task, svc) == Answer(s1, task, chunks, config, svc.chat);
    AnswerKnownTask(s1, task, chunks, config, svc.chat);
  }

  /** On one of the three task names `Answer` sends that task's prompt to the model. */
  lemma AnswerKnownTask(store: Store, task: string, chunks: seq<string>, config: Config.Config,
                        chat: ChatRequest -> ChatReply)
    requires task in {SummaryTask, AnalysisTask, QuestionsTask}
    ensures var prompt := if task == SummaryTask then SummaryPrompt(chunks)
                          else if task == AnalysisTask then AnalysisPrompt(chunks)
                          else QuestionsPrompt(chunks);
      Answer(store, task, chunks, config, chat).text == CallLlm(config, prompt, None, None, chat)
  {
  }

  /** A task name outside the three is rejected only after the index step: when the build
      succeeds, live or simulated, the index is written and the task is then refused. */
  lemma UnknownTaskAfterIndex(store: Store, id: DocId, extracted: string, task: string,
                              svc: Services)
    requires extracted != "" && id !in store.indexFiles
    requires CreateIndex(store, Config.ResolveConfig(svc.db, svc.env), id,
                         DocumentChunks(extracted), svc.embed, svc.rand).status == Created
    requires task !in {SummaryTask, AnalysisTask, QuestionsTask}
    ensures var r := ProcessDocument(store, id, extracted, task, svc);
      r.Returned? && r.text == UnknownTaskMessage && Indexed(r.store, id)
      && r.store == CreateIndex(store, Config.ResolveConfig(svc.db, svc.env), id,
                                DocumentChunks(extracted), svc.embed, svc.rand).store
  {
  }

  /** On an existing index an unknown task is refused without touching the store. */
  lemma UnknownTaskOnExistingIndex(store: Store, id: DocId, extracted: string, task: string,
                                   svc: Services)
    requires extracted != "" && id in store.indexFiles
    requires task !in {SummaryTask, AnalysisTask, QuestionsTask}
    ensures ProcessDocument(store, id, extracted, task, svc) == Returned(UnknownTaskMessage, store)
  {
  }

  /** In simulation mode the build always succeeds, so an unknown task on a new document
      leaves a written index behind. */
  lemma UnknownTaskInSimulation(store: Store, id: DocId, extracted: string, task: string,
                                svc: Services)
    requires extracted != "" && id !in store.indexFiles
    requires Config.ResolveConfig(svc.db, svc.env).simulationMode
    requires task !in {SummaryTask, AnalysisTask, QuestionsTask}
    ensures var r := ProcessDocument(store, id, extracted, task, svc);
      r.Returned? && r.text == UnknownTaskMessage && Indexed(r.store, id)
  {
    var config := Config.ResolveConfig(svc.db, svc.env);
    SimulatedBuildSucceeds(store, config, id, DocumentChunks(extracted), svc.embed, svc.rand);
    UnknownTaskAfterIndex(store, id, extracted, task, svc);
  }

  /** When the index is missing and the build declines, the caller gets the failure
      message and nothing is written. */
  lemma BuildFailureMessage(store: Store, id: DocId, extracted: string, task: string,
                            svc: Services)
    requires extracted != "" && id !in store.indexFiles
    requires CreateIndex(store, Config.ResolveConfig(svc.db, svc.env), id,
                         DocumentChunks(extracted), svc.embed, svc.rand).status == Declined
    ensures ProcessDocument(store, id, extracted, task, svc) == Returned(IndexFailedMessage, store)
  {
  }

  /** With the real API configured, an embedding endpoint that answers with an error status
      ends the call with the index failure message. */
  lemma EmbeddingErrorFails(store: Store, id: DocId, extracted: string, task: string,
                            svc: Services)
    requires extracted != "" && id !in store.indexFiles
    requires !Config.ResolveConfig(svc.db, svc.env).simulationMode
    requires var q := EmbeddingRequestFor(Config.ResolveConfig(svc.db, svc.env), DocumentChunks(extracted));
      svc.embed(q).EmbeddingHttp? && svc.embed(q).status != 200
    ensures ProcessDocument(store, id, extracted, task, svc) == Returned(IndexFailedMessage, store)
  {
    FailedEmbeddingDeclines(store, Config.ResolveConfig(svc.db, svc.env), id,
                            DocumentChunks(extracted), svc.embed, svc.rand);
  }

  /** In simulation mode a summary request on a non-empty text always ends with the canned
      summary, whether or not the index existed. */
  lemma SimulatedSummary(store: Store, id: DocId, extracted: string, svc: Services)
    requires extracted != ""
    requires Config.ResolveConfig(svc.db, svc.env).simulationMode
    ensures ProcessDocument(store, id, extracted, SummaryTask, svc).Returned?
    ensures ProcessDocument(store, id, extracted, SummaryTask, svc).text == MockSummary
  {
    var config := Config.ResolveConfig(svc.db, svc.env);
    var chunks := DocumentChunks(extracted);
    SimulatedBuildSucceeds(store, config, id, chunks, svc.embed, svc.rand);
    var s1 := if id in store.indexFiles then store
              else CreateIndex(store, config, id, chunks, svc.embed, svc.rand).store;
    assert ProcessDocument(store, id, extracted, SummaryTask, svc) == Answer(s1, SummaryTask, chunks, config, svc.chat);
    AnswerKnownTask(s1, SummaryTask, chunks, config, svc.chat);
    SummaryPromptReply(chunks);
  }

  /** Text of whitespace only is not rejected as empty: it cleans to nothing and is indexed
      and prompted as the single chunk "。". */
  lemma BlankTextSingleChunk(extracted: string)
    requires extracted != "" && AllSpace(extracted)
    ensures DocumentChunks(extracted) == [SingleTerminator]
  {
    BlankCleansToEmpty(extracted);
    EmptyTextChunks(DefaultChunkSize);
  }
}
