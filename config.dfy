/** The constants of `config.py` that the modelled core reads. */
module Config {
  import opened Text

  // Document processing.
  const ChunkSize: int := 600
  const ChunkOverlapLines: int := 3
  const BatchSize: int := 20

  // Search.
  const MultiQueryCount: int := 3
  const RecallNResults: int := 5
  const RerankTopK: int := 3
  const RerankThreshold: int := -10

  // Reasoning loop.
  const MaxReasoningSteps: nat := 5
  const ContextHistoryTurns: nat := 2

  /** The system prompt that opens every conversation sent to the chat model. */
  const SystemPrompt: string :=
    "\n你是一个必须查阅知识库的医学AI助手。\n\n【铁律 - 必须遵守】：\n1. **第一步必须是检索**：无论用户问什么（只要和医学有关），你输出的第一句话必须是 \"Action: 检索: [关键词]\"。\n2. **禁止裸答**：在没有看到 Observation (检索结果) 之前，禁止给出任何建议，禁止反问用户。\n3. **强制关联**：如果用户问\"怎么治\"，而你不知道病因，先检索症状（如 \"Action: 检索: 发热寒战\"）来看看可能是什么病。\n\n【标准工作流】：\nUser: 发热伴寒战\nAssistant: Thought: 用户提到症状，我必须先查库。\nAction: 检索: 发热伴寒战\nObservation: (系统返回知识)\nFinal Answer: 根据资料，这可能是...\n"

  /** `QUERY_EXPANSION_PROMPT.format(query=query, count=count)`. */
  function QueryExpansionPrompt(query: string, count: int): string
  {
    "\n你是一个医学搜索优化专家。\n请根据用户的口语化描述，生成 " + IntToString(count) + " 个用于检索医学教材的专业关键词或短语。\n用户问题: \"" + query + "\"\n要求:\n1. 包含医学术语。\n2. 包含可能的关联疾病。\n3. 只输出 " + IntToString(count) + " 行关键词，不要有序号。\n"
  }
}
