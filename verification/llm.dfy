/** The language-model calls of the system, as oracles.

    Every call to the model is a total function from what the caller puts
    into its prompt to what comes back, so a model of one conversation turn is
    a value of `Llm`. Free-text calls return a string; JSON calls return what
    `json.loads` made of the reply: a value of the expected shape or a parse
    error. Prompt wording, temperature and latency are not modelled. */
module Llm {
  import opened Common
  import opened Models

  /** The context summary the routing classifier sees. */
  datatype ContextSummary = ContextSummary(
    recentMessages: nat,
    lastTopic: Option<string>,
    lastOrderId: Option<string>,
    lastProductId: Option<string>)

  /** The free-text prompts, by what they carry. */
  datatype Prompt =
    | AgentPrompt(agent: AgentType, query: string, context: AgentContext, toolResults: string)
    | GreetingPrompt(message: string)
    | DirectPrompt(message: string)
    | ComposePrompt(message: string, intent: string, subAgentContent: string)

  /** The lightweight reviewer's JSON reply; an absent key is `None`. */
  datatype LightReply = LightReply(isOk: Option<Json>, issue: Option<string>)

  /** The full reviewer's JSON reply; an absent key is `None`. */
  datatype FullReply = FullReply(
    isAcceptable: Option<Json>,
    corrected: Option<string>,
    issues: Option<seq<string>>,
    changes: Option<seq<string>>,
    requiresRetry: Option<Json>)

  /** One model, as seen by the supervisor, the sub-agents and the auditor.
      The two review calls take nothing but the draft (and the pre-found
      issues): the auditor never sees the user's message or the history. */
  datatype Llm = Llm(
    generate: Prompt -> string,
    route: (string, ContextSummary) -> Parsed<Routing>,
    quickReview: string -> Parsed<LightReply>,
    fullReview: (string, seq<string>) -> Parsed<FullReply>)
}
