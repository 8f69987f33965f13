/** `DocumentProcessor.call_llm_api`: in simulation mode a canned reply chosen by keywords in
    the prompt; otherwise one chat-completion request whose every outcome, exceptions
    included, is turned into a string. */
module Completion {
  import opened Common
  import opened Strings
  import Config

  // ---------------------------------------------------------------------------------------
  // Simulation mode

  const SummaryMarker: string := "总结要点"
  const AnalysisMarker: string := "详细分析"
  const SetQuestionsMarker: string := "出题"
  const QuestionsMarker: string := "题目"

  /** `_generate_mock_summary()`. */
  const MockSummary: string :=
    "## 主要内容概述\n这是一个示例文档的总结。文档主要讨论了现代技术对社会的影响。\n\n## 关键要点\n"
    + "1. 技术发展迅速改变了人们的生活方式\n2. 数字化转型已成为企业发展的必然趋势\n"
    + "3. 人工智能在各行各业都有广泛应用\n4. 数据安全和个人隐私保护变得日益重要\n\n"
    + "## 重要结论\n技术发展带来了巨大机遇，但也伴随着挑战，需要平衡创新与规范。"

  /** `_generate_mock_analysis()`. */
  const MockAnalysis: string :=
    "## 内容深度解析\n文档从多个角度分析了技术发展的影响，包括经济、社会和文化层面。\n\n"
    + "## 核心观点分析\n1. **技术驱动变革**: 文档强调技术是推动社会进步的主要动力\n"
    + "2. **数字化转型**: 企业必须适应数字化趋势以保持竞争力\n"
    + "3. **伦理考量**: 技术创新需要与伦理规范相结合\n\n"
    + "## 逻辑结构分析\n文档采用总分总结构，先提出总体观点，然后分点论述，最后总结升华。\n\n"
    + "## 价值与意义\n本文为理解技术发展趋势提供了重要参考，对政策制定和企业战略具有指导意义。"

  /** `_generate_mock_questions()`. */
  const MockQuestions: string :=
    "## 选择题（5道）\n1. 技术发展的主要驱动力是什么？\n   A. 市场需求\n   B. 政策支持\n"
    + "   C. 科技创新\n   D. 资本投入\n   正确答案：C\n\n2. 数字化转型对企业意味着什么？\n"
    + "   A. 增加成本\n   B. 提高效率\n   C. 减少员工\n   D. 降低质量\n   正确答案：B\n\n"
    + "## 判断题（3道）\n1. 人工智能可以完全替代人类工作。 (错误)\n"
    + "2. 数据安全是数字化时代的重要议题。 (正确)\n3. 技术发展只会带来正面影响。 (错误)\n\n"
    + "## 简答题（2道）\n1. 请简述数字化转型的三个主要优势。\n"
    + "   参考答案：提高效率、优化流程、创新业务模式\n\n"
    + "## 填空题（3道）\n1. 技术创新的核心是__创造性思维__。\n2. 数字化转型的关键在于__数据驱动__。\n"
    + "3. 人工智能的基础是__算法和算力__。"

  /** The reply when no keyword matches. */
  const Placeholder: string := "这是AI生成的模拟响应。请配置AI API密钥以获取真实结果。"

  /** The four canned replies are pairwise different. */
  lemma MocksDistinct()
    ensures MockSummary != MockAnalysis && MockSummary != MockQuestions
    ensures MockSummary != Placeholder && MockAnalysis != MockQuestions
    ensures MockAnalysis != Placeholder && MockQuestions != Placeholder
  {
    assert |MockSummary| != |MockAnalysis| && |MockSummary| != |MockQuestions|;
    assert |MockAnalysis| != |MockQuestions|;
    assert |Placeholder| < |MockSummary| && |Placeholder| < |MockAnalysis| && |Placeholder| < |MockQuestions|;
  }

  /** The simulation branch: the first keyword found in the prompt decides. */
  function SimulatedReply(prompt: string): (r: string)
    ensures r == MockSummary <==> Contains(prompt, SummaryMarker)
    ensures r == MockAnalysis <==> !Contains(prompt, SummaryMarker) && Contains(prompt, AnalysisMarker)
    ensures r == MockQuestions <==>
      && !Contains(prompt, SummaryMarker) && !Contains(prompt, AnalysisMarker)
      && (Contains(prompt, SetQuestionsMarker) || Contains(prompt, QuestionsMarker))
    ensures r == Placeholder <==>
      && !Contains(prompt, SummaryMarker) && !Contains(prompt, AnalysisMarker)
      && !Contains(prompt, SetQuestionsMarker) && !Contains(prompt, QuestionsMarker)
  {
    MocksDistinct();
    if Contains(prompt, SummaryMarker) then MockSummary
    else if Contains(prompt, AnalysisMarker) then MockAnalysis
    else if Contains(prompt, SetQuestionsMarker) || Contains(prompt, QuestionsMarker) then MockQuestions
    else Placeholder
  }

  // ---------------------------------------------------------------------------------------
  // Live mode

  /** The POST to `{base_url}/chat/completions`: one user message holding the prompt,
      `stream` off. */
  datatype ChatRequest = ChatRequest(
    url: string,
    authorization: string,
    model: string,
    prompt: string,
    temperature: real,
    maxTokens: int)

  /** The first element of `choices`: it has `message.content`, or reading it raises. */
  datatype Choice = Choice(content: string) | MalformedChoice(error: string)

  /** The `error` member of an error body: a dictionary with `message`, or anything else,
      written as Python prints it. */
  datatype ErrorField = ErrorObject(message: string) | ErrorValue(repr: string)

  /** `response.json()`: it raises, or it gives a value, printed as `repr`, that may hold a
      `choices` list and an `error` member. */
  datatype Body =
    | Unparsable(exception: string)
    | Parsed(repr: string, choices: Option<seq<Choice>>, error: Option<ErrorField>)

  /** How the request ended: `requests` raised a timeout, a connection error or another
      exception (with its message), or an HTTP status came back with its raw text and body. */
  datatype ChatReply =
    | TimedOut
    | ConnectionFailed
    | Failed(error: string)
    | Http(status: int, text: string, body: Body)

  const ChatPath: string := "/chat/completions"
  const BearerPrefix: string := "Bearer "
  const ApiErrorPrefix: string := "AIHubMix API错误: "
  const FormatErrorPrefix: string := "API响应格式异常: "
  const FailurePrefix: string := "调用AIHubMix API失败: "
  const TimeoutMessage: string := "AIHubMix API请求超时，请稍后重试"
  const ConnectionMessage: string := "无法连接到AIHubMix API，请检查网络连接"

  function ChatRequestFor(config: Config.Config, prompt: string, temperature: Option<real>,
                          maxTokens: Option<int>): (q: ChatRequest)
    ensures q.url == config.baseUrl + ChatPath && q.authorization == BearerPrefix + config.apiKey
    ensures q.model == config.modelName && q.prompt == prompt
    ensures q.temperature == (if temperature.Some? then temperature.value else config.temperature)
    ensures q.maxTokens == (if maxTokens.Some? then maxTokens.value else config.maxTokens)
  {
    ChatRequest(config.baseUrl + ChatPath, BearerPrefix + config.apiKey, config.modelName, prompt,
                temperature.GetOr(config.temperature), maxTokens.GetOr(config.maxTokens))
  }

  /** A reply that carries a completion: status 200, a `choices` list whose first element
      has a content. */
  predicate Answered(reply: ChatReply)
  {
    && reply.Http? && reply.status == 200 && reply.body.Parsed?
    && reply.body.choices.Some? && |reply.body.choices.value| > 0
    && reply.body.choices.value[0].Choice?
  }

  /** The strings `call_llm_api` returns when no completion was obtained. */
  predicate IsErrorText(s: string)
  {
    || s == TimeoutMessage || s == ConnectionMessage
    || (|ApiErrorPrefix| <= |s| && s[..|ApiErrorPrefix|] == ApiErrorPrefix)
    || (|FormatErrorPrefix| <= |s| && s[..|FormatErrorPrefix|] == FormatErrorPrefix)
    || (|FailurePrefix| <= |s| && s[..|FailurePrefix|] == FailurePrefix)
  }

  /** The `try` block and its three handlers, from the reply to the returned string. */
  function ReplyText(reply: ChatReply): (r: string)
    ensures Answered(reply) ==> r == reply.body.choices.value[0].content
    ensures !Answered(reply) ==> IsErrorText(r)
    ensures reply.Http? && reply.status != 200 ==>
      |ApiErrorPrefix| <= |r| && r[..|ApiErrorPrefix|] == ApiErrorPrefix
    // the three exception handlers
    ensures reply.TimedOut? ==> r == TimeoutMessage
    ensures reply.ConnectionFailed? ==> r == ConnectionMessage
    ensures reply.Failed? ==> r == FailurePrefix + reply.error
    // status 200: a body that is not JSON, or a first choice without a content, raises into
    // the generic handler; a body without choices is reported as a format error
    ensures reply.Http? && reply.status == 200 && reply.body.Unparsable? ==>
      r == FailurePrefix + reply.body.exception
    ensures (reply.Http? && reply.status == 200 && reply.body.Parsed?
             && !(reply.body.choices.Some? && |reply.body.choices.value| > 0)) ==>
      r == FormatErrorPrefix + reply.body.repr
    ensures (reply.Http? && reply.status == 200 && reply.body.Parsed?
             && reply.body.choices.Some? && |reply.body.choices.value| > 0
             && reply.body.choices.value[0].MalformedChoice?) ==>
      r == FailurePrefix + reply.body.choices.value[0].error
    // any other status: the error message, the printed error member, or the raw text
    ensures reply.Http? && reply.status != 200 && (reply.body.Unparsable? || reply.body.error.None?) ==>
      r == ApiErrorPrefix + reply.text
    ensures (reply.Http? && reply.status != 200 && reply.body.Parsed?
             && reply.body.error.Some? && reply.body.error.value.ErrorObject?) ==>
      r == ApiErrorPrefix + reply.body.error.value.message
    ensures (reply.Http? && reply.status != 200 && reply.body.Parsed?
             && reply.body.error.Some? && reply.body.error.value.ErrorValue?) ==>
      r == ApiErrorPrefix + reply.body.error.value.repr
  {
    match reply
    case TimedOut => TimeoutMessage
    case ConnectionFailed => ConnectionMessage
    case Failed(e) => FailurePrefix + e
    case Http(status, text, body) =>
      if status == 200 then
        match body
        case Unparsable(e) => FailurePrefix + e
        case Parsed(repr, choices, _) =>
          if choices.Some? && |choices.value| > 0 then
            match choices.value[0]
            case Choice(content) => content
            case MalformedChoice(e) => FailurePrefix + e
          else FormatErrorPrefix + repr
      else
        match body
        case Unparsable(_) => ApiErrorPrefix + text
        case Parsed(_, _, error) =>
          match error
          case None => ApiErrorPrefix + text
          case Some(ErrorObject(m)) => ApiErrorPrefix + m
          case Some(ErrorValue(v)) => ApiErrorPrefix + v
  }

  /** `call_llm_api(prompt, temperature, max_tokens)`. */
  function CallLlm(config: Config.Config, prompt: string, temperature: Option<real>,
                   maxTokens: Option<int>, transport: ChatRequest -> ChatReply): (r: string)
    ensures config.simulationMode ==>
      r in {MockSummary, MockAnalysis, MockQuestions, Placeholder}
    ensures !config.simulationMode ==>
      var reply := transport(ChatRequestFor(config, prompt, temperature, maxTokens));
      (Answered(reply) ==> r == reply.body.choices.value[0].content) && (!Answered(reply) ==> IsErrorText(r))
    ensures config.simulationMode ==> r == SimulatedReply(prompt)
    ensures !config.simulationMode ==>
      r == ReplyText(transport(ChatRequestFor(config, prompt, temperature, maxTokens)))
  {
    if config.simulationMode then SimulatedReply(prompt)
    else ReplyText(transport(ChatRequestFor(config, prompt, temperature, maxTokens)))
  }

  /** Leaving out the temperature and the token limit is the same as passing the configured
      values. */
  lemma DefaultsFromConfig(config: Config.Config, prompt: string,
                           transport: ChatRequest -> ChatReply)
    ensures CallLlm(config, prompt, None, None, transport)
         == CallLlm(config, prompt, Some(config.temperature), Some(config.maxTokens), transport)
  {
  }

  /** Simulation mode never calls the API and ignores the sampling parameters. */
  lemma SimulationIgnoresTransport(config: Config.Config, prompt: string,
                                   t1: Option<real>, m1: Option<int>, t2: Option<real>, m2: Option<int>,
                                   x1: ChatRequest -> ChatReply, x2: ChatRequest -> ChatReply)
    requires config.simulationMode
    ensures CallLlm(config, prompt, t1, m1, x1) == CallLlm(config, prompt, t2, m2, x2)
  {
  }

  /** An error object with a message gives that message behind the API-error prefix. */
  lemma ErrorMessageShown(status: int, text: string, repr: string,
                          choices: Option<seq<Choice>>, m: string)
    requires status != 200
    ensures ReplyText(Http(status, text, Parsed(repr, choices, Some(ErrorObject(m)))))
         == ApiErrorPrefix + m
  {
  }

  /** A completion that happens to read like an error message cannot be told apart from the
      error: the caller receives the same string either way. */
  lemma CompletionMimicsTimeout(repr: string)
    ensures var answered := Http(200, "", Parsed(repr, Some([Choice(TimeoutMessage)]), None));
      Answered(answered) && ReplyText(answered) == ReplyText(TimedOut)
  {
  }
}
