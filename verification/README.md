# Reputation-safe customer service agent — a Dafny model

The system is a customer service assistant for an electronics store. Each
user message goes through a fixed pipeline:

1. an **input guardrail** blocks prompt injections and flags abusive
   messages and messages with a legal high-risk intent;
2. a **supervisor** records the message in the conversation memory. It asks
   a routing classifier which specialist should answer, falling back to
   keyword routing when the reply is not JSON. It remembers the extracted
   order/product ids, calls the chosen **sub-agents** (order, product,
   support) and composes the reply;
3. each sub-agent picks one or more **tools** (order lookup, tracking,
   cancellation, product search, availability, FAQ, contact info, support
   tickets) from keywords and ids in the message, and asks the language
   model to phrase an answer from the tool results;
4. an **auditor** checks the composed draft against a rubric of forbidden
   phrases, forbidden promises and length limits, then asks for a
   lightweight or a full model review. The pipeline retries the
   supervisor while the audit asks for a retry, up to `max_retries`, and
   then falls back to a canned apology;
5. an **output guardrail** removes blocked terms, redacts personal data,
   appends disclaimers and truncates to 2000 characters.

The language model is a record of four oracle functions (`Llm.Llm`):
free-text generation, routing, the lightweight review and the full review.
They return parsed JSON or a parse error. A regular-expression engine is
the pair of functions `Guardrails.Regex`. The in-memory order and product
stores are data, and the random ticket number is a parameter. Every
operation is a pure function from inputs to outputs. State that the
source mutates (conversation memory, the pipeline's supervisor) is
threaded through explicitly, and the pipeline returns its new state with
its result.

Modules follow the source files:

| module | file | source |
|---|---|---|
| `Common` | common.dfy | option/result wrappers, Python truthiness of JSON values |
| `Text` | text.dfy | the Python string operations the source uses (`lower`, `in`, `strip`, `capitalize`, `str(int)`) |
| `Models` | models.dfy | `src/models.py` |
| `Tools` | tools.dfy | `src/tools.py` |
| `Llm` | llm.dfy | the model calls' inputs and parsed outputs |
| `Guardrails` | guardrails.dfy | `src/guardrails.py` |
| `Auditor` | auditor.dfy | `src/auditor.py` |
| `SubAgents` | subagents.dfy | `src/sub_agents.py` |
| `Supervisor` | supervisor.dfy | `src/supervisor.py` |
| `Pipeline` | pipeline.dfy | `src/pipeline.py` |

## Model

| member | source | states |
|---|---|---|
| Models.AddMessage | src/models.py:39-44 | appends exactly one message with the given role and content, keeps every earlier message and the context |
| Models.HistoryLength | src/models.py:46-49 | the size of `messages[-max_turns*2:]` under Python slicing: the last `2*max_turns` messages, all of them for `max_turns == 0`, and for a negative count all but the first `-2*max_turns` |
| Models.GetHistory | src/models.py:46-49 | the history is the role/content pairs of exactly the last `HistoryLength` messages, in order |
| Models.DefaultHistoryWindow | src/models.py:46-49 | with the default of 10 turns the history is the last `min(n, 20)` messages |
| Models.HistoryEndsWithLatest | src/models.py:39-49 | after adding a message, any history window of one turn or more ends with that message |
| Models.SetContext | src/models.py:51-52 | sets one key to the value, leaves the messages and every other key as they were |
| Models.GetContext | src/models.py:54-55 | returns the stored value, or nothing when the key is missing |
| Models.SetThenGet | src/models.py:51-55 | reading a key just set returns the value; other keys read as before |
| Models.NewResponse | src/models.py:67-76 | a fresh response is valid, has no tool calls, errors or metadata |
| Models.NewVerdict | src/models.py:78-86 | a fresh guardrail result has no modified text, reason or flags |
| Tools.GetOrder | src/tools.py:81-93 | an order is found iff its upper-cased id is in the store, and it is that entry |
| Tools.OrderLookupIgnoresCase | src/tools.py:81-82 | two ids equal up to ASCII case find the same order |
| Tools.GetOrderStatus | src/tools.py:95-97 | there is a status iff the order exists, and it is that order's status |
| Tools.GetTrackingInfo | src/tools.py:99-109 | tracking exists iff the order exists and has a tracking number; it carries that number, carrier FastShip and the order's status |
| Tools.CancelOrder | src/tools.py:111-121 | cancellation succeeds iff the order exists and is neither delivered nor shipped; each refusal carries its own message |
| Tools.MockCancellations | src/tools.py:7-35 | on the shipped store: the shipped and the delivered order cannot be cancelled, the processing one can, an unknown id is not found |
| Tools.FindProduct | src/tools.py:183-184 | a product is found iff some store entry has the upper-cased id, and it is such an entry |
| Tools.GetProductDetails | src/tools.py:183-195 | details exist iff the upper-cased id is in the store, and exactly when an availability answer exists |
| Tools.GetContactInfo | src/tools.py:283-289 | the contact record has an e-mail address and a non-empty phone, hours and live-chat note |
| Tools.CheckAvailability | src/tools.py:197-206 | availability exists iff the product exists; the message says Available exactly when it is in stock |
| Tools.SearchLocal | src/tools.py:150-163 | a product is in the local result iff it is in the store and the lower-cased query occurs in its name or description and, when given, the category matches ignoring case |
| Tools.SearchKeepsStoreOrder | src/tools.py:153-163 | the search visits the store in order: searching a concatenated store concatenates the results |
| Tools.SearchProducts | src/tools.py:150-181 | local matches when there are any, otherwise the semantic search results (or none without a search index) |
| Tools.GetProductsByCategory | src/tools.py:208-218 | an entry is listed iff some store product has that category ignoring case, with its id, name and stock flag |
| Tools.GetFaq | src/tools.py:242-270 | no entry iff no FAQ key occurs in the lower-cased topic; otherwise the entry of a key that occurs |
| Tools.CreateSupportTicket | src/tools.py:272-281 | the ticket id is `TKT-` followed by the five digits of the drawn number, the ticket is open and keeps the subject |
| Guardrails.FirstMatch | src/guardrails.py:44-74 | some pattern is reported iff one of the patterns matches |
| Guardrails.CheckInput | src/guardrails.py:42-80 | block iff an injection pattern matches; otherwise the abuse flag iff an abuse pattern matches; otherwise the high-risk flags iff a high-risk keyword occurs, with the first such keyword in the reason; otherwise allow; input is never modified |
| Guardrails.IssueIsFlaggedAsLegal | src/guardrails.py:34-74 | the word "issue" contains "sue", so a harmless complaint is flagged as legal risk |
| Guardrails.RemoveTerms | src/guardrails.py:119-125 | the text changes iff some blocked term occurs ignoring case, and then one flag per removed term is added |
| Guardrails.RemoveTermsLeavesNoTerm | src/guardrails.py:119-125 | after removal no blocked term occurs, ignoring case, whatever the replacement marker created |
| Guardrails.RemoveTermsKeepsAbsent | src/guardrails.py:119-125 | removal does not create a text that the input did not contain |
| Guardrails.DefaultTermsAreSafe | src/guardrails.py:88-93 | every shipped blocked term is safe to remove with the marker |
| Guardrails.RedactPii | src/guardrails.py:128-132 | the draft changes iff some PII pattern matches; each redaction adds one `pii_redacted` flag |
| Guardrails.AddDisclaimers | src/guardrails.py:135-139 | the text only grows at the end; it changes iff some keyword occurs and its disclaimer is absent |
| Guardrails.DisclaimersKeepAbsent | src/guardrails.py:135-139 | appending disclaimers does not create a text absent from the draft and from every disclaimer |
| Guardrails.AddDisclaimersSettles | src/guardrails.py:135-139 | after the pass no disclaimer is due, for independent tables, where no disclaimer can create an earlier rule's trigger |
| Guardrails.DisclaimersIdempotent | src/guardrails.py:135-139 | for such tables a second pass adds nothing |
| Guardrails.Truncate | src/guardrails.py:142-145 | the text changes iff it is over the limit; then it is the first `max_length - 100` characters under Python slicing followed by the notice, and within the limit when the limit is at least 100 |
| Guardrails.SmallLimitOverflows | src/guardrails.py:142-145 | with a limit of 10 the negative slice bound counts from the end, and a 200-character text truncates to 144 characters, over the limit |
| Guardrails.CheckOutput | src/guardrails.py:110-159 | never blocks; allows iff no stage changed anything; a modification carries the new text, the reason and flags; the result fits a limit of at least 100 |
| Guardrails.TermFlagged | src/guardrails.py:119-125 | a blocked term's flag is reported iff the term occurs in the text, ignoring case |
| Guardrails.TermFlagsMembers | src/guardrails.py:119-125 | every term flag names a term that occurs, and every occurring term is flagged |
| Guardrails.TermFlagsDistinct | src/guardrails.py:119-125 | for terms that cannot overlap, no term is flagged twice |
| Guardrails.ReplaceKeepsOccurrence | src/guardrails.py:121-123 | replacing a term by the marker keeps every occurrence of a term that cannot overlap it |
| Guardrails.RemoveTermsFlags | src/guardrails.py:119-125 | for safe terms that cannot overlap, the stage adds exactly one flag per term occurring in its input, in list order, even though earlier removals change the text |
| Guardrails.DefaultTermsApart | src/guardrails.py:88-93 | no two shipped blocked terms can overlap in any text |
| Guardrails.DefaultRemoveTermsFlags | src/guardrails.py:88-125 | with the shipped terms, a term's flag is present iff the term occurs in the output, and no flag repeats |
| Guardrails.RedactPiiLeavesNoMatch | src/guardrails.py:128-132 | when each substitution removes its own pattern's matches and none recreates an earlier pattern's, no pattern matches after the stage |
| Guardrails.Fired | src/guardrails.py:128-132 | the number of patterns that match a text: at most the number of patterns, and zero iff none matches |
| Guardrails.RedactPiiCount | src/guardrails.py:128-132 | when no substitution changes whether a later pattern matches, the stage adds exactly one flag per pattern that matched its input |
| Guardrails.DueFlagsMembers | src/guardrails.py:135-139 | every disclaimer flag names a rule that is due, and every due rule is flagged |
| Guardrails.AddDisclaimersFlags | src/guardrails.py:135-139 | for quiet tables the stage adds exactly one flag per rule due on its input, in table order |
| Guardrails.DefaultDisclaimersQuiet | src/guardrails.py:103-107 | the shipped disclaimers are paragraphs and none contains another rule's trigger or disclaimer, so appending one never changes whether another is due |
| Guardrails.DefaultDisclaimersIndependent | src/guardrails.py:103-107 | no shipped disclaimer can create an earlier rule's trigger |
| Guardrails.DueFlagsDistinct | src/guardrails.py:135-139 | with different triggers, no rule is flagged twice |
| Guardrails.DefaultDisclaimerFlags | src/guardrails.py:103-139 | with the shipped table the stage flags exactly the rules due on its input, in table order, each once |
| Guardrails.DefaultDisclaimersIdempotent | src/guardrails.py:103-139 | with the shipped table a second disclaimer pass changes nothing |
| Guardrails.CheckOutputFlags | src/guardrails.py:110-159 | the verdict's flags are one per blocked term occurring in the output, then the PII flags (one per fired pattern when redactions do not interfere), then one per disclaimer due, then `truncated` iff the text is over the limit; the rewrite is the last stage's text |
| Guardrails.PiiStageFlags | src/guardrails.py:128-132 | the PII stage only appends `pii_redacted` flags, at most one per pattern, and one per fired pattern when redactions do not interfere |
| Guardrails.DefaultCheckOutputFlags | src/guardrails.py:84-159 | with the shipped rules the flags are exact with no further hypothesis on the terms or the disclaimers, and at most three PII flags are added |
| Guardrails.RecheckAddsNoDisclaimer | src/guardrails.py:110-159 | for independent tables, re-checking a rewrite that was not truncated and holds no blocked term or PII match allows it: no disclaimer is added twice |
| Guardrails.DefaultRecheckAddsNoDisclaimer | src/guardrails.py:84-159 | the same for the shipped rules, with no hypothesis on the table |
| Auditor.Mentions | src/auditor.py:152-163 | one issue per rubric item that occurs ignoring case, and only those |
| Auditor.QuickCheck | src/auditor.py:148-171 | passes iff the draft contains no forbidden phrase or promise and its length is within the limits; every issue is justified and every violation is reported |
| Auditor.FullAudit | src/auditor.py:233-276 | an unparseable review keeps the draft, valid, with a parse-error note; a parsed one gives the reviewer's correction (or the draft), is valid iff acceptable and no retry is asked, and asks for a retry iff the reply does; a retry request is never valid |
| Auditor.LightweightAudit | src/auditor.py:195-231 | an unparseable or approving review (an absent `is_ok` approves) keeps the draft, valid, with no retry; a disapproving one escalates to the full review with the reported issue, or a stock note, as the only known issue |
| Auditor.Audit | src/auditor.py:173-193 | a draft failing the quick check or at least 800 characters long gets the full review with the quick check's issues; otherwise the lightweight one |
| Auditor.AuditFailsOpen | src/auditor.py:173-276 | when no review parses, the draft is accepted unchanged |
| Auditor.AuditSeesOnlyDraft | src/auditor.py:173-193 | the audit depends only on the reviews of the draft itself |
| Auditor.ViolationReachesFullReview | src/auditor.py:183-193 | a draft with a forbidden phrase or promise always goes to the full review, with that violation among the issues |
| Auditor.CreateFallbackResponse | src/auditor.py:279-288 | the fallback begins with the apology, fits the default rubric's length limits and is short enough for the lightweight review |
| Auditor.FallbackIgnoresReason | src/auditor.py:279-288 | the fallback text does not depend on the reason given |
| Auditor.FallbackNamesSupportContact | src/auditor.py:279-288 | the fallback names the support e-mail address and phone number that the contact tool gives |
| SubAgents.FormatToolResult | src/sub_agents.py:29-33 | a missing result is reported as "no results", any other as the tool name followed by its serialisation |
| SubAgents.NoResultIsDistinguishable | src/sub_agents.py:29-33 | the "no results" text differs from the rendering of every real result |
| SubAgents.FindId | src/sub_agents.py:73-75 | finds the leftmost prefix followed by three digits, or reports none iff there is no such occurrence |
| SubAgents.LeadingId | src/sub_agents.py:73-75 | when no earlier character starts the prefix, the first occurrence is the one found |
| SubAgents.OrderIdFor | src/sub_agents.py:69-75 | a remembered order id wins; otherwise the id found in the upper-cased query |
| SubAgents.OrderToolFor | src/sub_agents.py:83-98 | cancel wins over tracking, tracking over status, status over the plain lookup |
| SubAgents.RunOrderTool | src/sub_agents.py:83-98 | each tool name runs its own order tool on the chosen id |
| SubAgents.OrderAgentProcess | src/sub_agents.py:63-121 | exactly one tool call iff an order id is known; a cancellation is only made when asked for; the answer is the model's reply to the tool results |
| SubAgents.ContextOrderWins | src/sub_agents.py:69-75 | an id in the query does not override the remembered one |
| SubAgents.QueryOrderFound | src/sub_agents.py:69-91 | "where is ORD-003?" looks up tracking for ORD-003 |
| SubAgents.ProductIdFor | src/sub_agents.py:160-162 | an id in the query wins over the remembered product id |
| SubAgents.CategoryFor | src/sub_agents.py:176-182 | a category iff one of the known categories occurs, capitalised |
| SubAgents.SearchTerms | src/sub_agents.py:185 | the search terms are no longer than the query and carry no surrounding whitespace; a query without the three phrases searches for itself, lower-cased and stripped |
| SubAgents.SearchTermsAfterPhrase | src/sub_agents.py:185 | a query that opens with "show me", "find" or "search for" and a space searches for the rest alone, lower-cased and stripped, when the rest holds none of the phrases |
| SubAgents.ProductCall | src/sub_agents.py:164-188 | availability when a product id is known and stock is asked about, details when only the id is known, a search otherwise |
| SubAgents.ProductAgentProcess | src/sub_agents.py:151-210 | exactly one tool call, the chosen one, and the model's answer to its result |
| SubAgents.QueryProductWins | src/sub_agents.py:160-168 | an id in the query overrides the remembered product |
| SubAgents.FaqCalls | src/sub_agents.py:249-259 | one FAQ lookup iff a topic word occurs, for the first such topic |
| SubAgents.SupportCalls | src/sub_agents.py:249-276 | FAQ, then contact info, then a ticket, each exactly when asked for; a ticket is only opened when asked for |
| SubAgents.SupportAgentProcess | src/sub_agents.py:240-297 | the support calls in order and the model's answer to their results |
| SubAgents.RefundFindsNoFaq | src/sub_agents.py:249-259 | a refund question looks up the topic "refund", which has no FAQ entry |
| SubAgents.GetSubAgent | src/sub_agents.py:301-312 | succeeds iff the type is one of the three specialists, otherwise fails with the unknown-type message |
| SubAgents.RunSubAgent | src/sub_agents.py:301-312 | the chosen specialist answers, as itself |
| Supervisor.KeywordRouting | src/supervisor.py:105-125 | order keywords win over product keywords, product over support, support is the default; small talk iff no keyword list matched |
| Supervisor.AgentTypeOf | src/supervisor.py:127-134 | a type iff the name is one of the three specialists' names |
| Supervisor.AgentTypeOfName | src/supervisor.py:127-134 | a specialist's own name maps back to it |
| Supervisor.RouteQuery | src/supervisor.py:78-103 | the classifier's decision when it parses, the keyword fallback otherwise |
| Supervisor.Remember | src/supervisor.py:222-229 | truthy entities overwrite the remembered ones, the others and the messages are kept |
| Supervisor.Additional | src/supervisor.py:246-256 | only names of specialists are called, none of them as primary; every route that names a specialist is called |
| Supervisor.AdditionalAppend | src/supervisor.py:247-255 | the routes are handled in list order: the calls for two lists joined are the calls for each, joined |
| Supervisor.AdditionalSingle | src/supervisor.py:248-255 | one route gives one non-primary call to its specialist, or none when it names no specialist |
| Supervisor.Plan | src/supervisor.py:232-256 | the primary specialist first when there is one; then, only when several are required, exactly the additional routes' calls in list order |
| Supervisor.Dispatch | src/supervisor.py:232-256 | one answer per planned call, from that specialist |
| Supervisor.PrimarySeesCurrentMessage | src/supervisor.py:237-243 | the primary specialist's history is at most three turns and ends with the current message |
| Supervisor.JoinContainsEach | src/supervisor.py:153-156 | every joined part occurs in the joined text |
| Supervisor.ComposePromptFor | src/supervisor.py:136-181 | greeting iff small talk with no specialist answer, direct iff neither, composition iff some answer; every tagged answer is in the prompt |
| Supervisor.AllToolCalls | src/supervisor.py:268-271 | a tool call is collected iff some specialist made it |
| Supervisor.AllToolCallsAppend | src/supervisor.py:268-271 | a later specialist's calls come after those of the earlier ones |
| Supervisor.AgentsUsed | src/supervisor.py:277-280 | the value of each answering specialist, in order |
| Supervisor.Reply | src/supervisor.py:231-281 | the reply reports the routing and the planned specialists in call order, carries their tool calls in order, and is the model's answer to the prompt composed from their answers |
| Supervisor.Record | src/supervisor.py:216-266 | the memory gains exactly the user message then the reply; truthy entities overwrite the remembered ones, the others are kept |
| Supervisor.Process | src/supervisor.py:213-281 | exactly the user message and the reply are recorded; the routing is reported; specialists are reported in call order; truthy entities are remembered before the specialists run; the tool calls are the planned specialists' calls in order; the reply is the model's answer to the prompt composed from their answers (the turn is `Record` and `Reply` on the classifier's decision) |
| Supervisor.ReplyConsultsOnce | src/supervisor.py:232-279 | a plan of one primary call reports exactly that specialist and composes the reply from its answer |
| Supervisor.FallbackAlwaysConsults | src/supervisor.py:93-125 | an unparseable routing reply consults exactly the keyword specialist |
| Supervisor.NoneRouteAnswersDirectly | src/supervisor.py:232-235 | a `NONE` route with no additional routes consults nobody |
| Supervisor.OrderIdCarriesOver | src/supervisor.py:222-243 | an order id extracted in one turn is given to the order specialist in the next |
| Supervisor.ResetMemory | src/supervisor.py:283-285 | no context key and no history survive a reset |
| Pipeline.MaxRetries | src/pipeline.py:97 | the requested retries; 3 when none or zero is requested, since `max_retries or config.max_retries` treats 0 as missing |
| Pipeline.NewPipeline | src/pipeline.py:82-107 | a fresh pipeline has empty memory, the resolved retry limit and the default rubric when none is given |
| Pipeline.HandleBlocked | src/pipeline.py:109-124 | a blocked input gets the fixed refusal, reports the block reason and no supervisor work |
| Pipeline.Notify | src/pipeline.py:109-137 | a callback event is raised exactly for a blocked or flagged input whose callback is registered |
| Pipeline.Cycle | src/pipeline.py:168-180 | a cycle is the supervisor's turn and the audit of its reply, and records two messages |
| Pipeline.CyclesGrow | src/pipeline.py:168-180 | every cycle keeps the memory's prefix and adds two messages |
| Pipeline.RunLoop | src/pipeline.py:168-193 | the loop runs at most `max_retries + 1` cycles; it stops early only on an accepted or non-retryable audit; exhaustion leaves the counter at `max_retries + 1` |
| Pipeline.RetryLoop | src/pipeline.py:168-193 | the imperative loop with its breaks computes the loop state above |
| Pipeline.DeliveredFits | src/pipeline.py:204-207 | the delivered text fits the output limit |
| Pipeline.Proceed | src/pipeline.py:164-222 | the delivered text is the output guardrail's verdict on the last audited reply, or on the fallback once retries are exhausted; at most `max_retries + 1` cycles are recorded |
| Pipeline.Process | src/pipeline.py:139-224 | blocked iff an injection is detected, and then nothing else happens; otherwise the input proceeds; the response always fits the limit |
| Pipeline.FlagProceedsAsAllow | src/pipeline.py:126-137 | a flagged input is processed as an allowed one, apart from the reported verdict and the callback |
| Pipeline.StubbornLoop | src/pipeline.py:168-193 | audits that always ask for a retry run the loop exactly `max_retries + 1` times |
| Pipeline.StubbornAuditorExhausts | src/pipeline.py:168-199 | such an auditor leads to the fallback response with `retries_used == max_retries + 1` |
| Pipeline.AcceptedFirstStep | src/pipeline.py:168-189 | a valid first audit stops the loop after one cycle, with that cycle's responses and memory and no retry counted |
| Pipeline.AcceptedFirstDraft | src/pipeline.py:168-193 | an accepted first audit ends the loop after one cycle, with no retry counted |
| Pipeline.NegativeLimitSkipsLoop | src/pipeline.py:168-199 | a negative retry limit skips the supervisor and delivers the fallback |
| Pipeline.ResetConversation | src/pipeline.py:226-228 | the conversation is empty afterwards and the settings are kept |
| Pipeline.GetConversationHistory | src/pipeline.py:230-232 | the last `min(n, 20)` messages as role/content pairs |

## Left out

- Regular expressions are abstract (`Guardrails.Regex`): the injection, abuse and PII patterns, `\d` in the id patterns and `re.IGNORECASE` matching are not modelled character by character. The id search in `SubAgents.FindId` is the exception: it is concrete, with ASCII digits.
- Casing (`lower`, `upper`, `capitalize`) is ASCII only. Python's Unicode case mapping is not modelled.
- `strip()` removes the whitespace characters up to U+00FF (tab to carriage return, 0x1C-0x20, 0x85 and 0xA0). Whitespace above U+00FF is not modelled.
- Prices, totals and relevance scores are floats in the source and are left out of the store records. Nothing in the core branches on them.
- The prompt texts, system prompts, temperatures and token limits passed to the model are left out. Prompts are modelled by what they carry (`Llm.Prompt`).
- `json.dumps` of tool results is the parameter `SubAgents.Env.dump`.
- JSON values of a type the source does not expect are left out, for example a `null` `extracted_entities` or a non-list `additional_routes`, on which the source raises. An absent or `null` field is treated as missing.
- The semantic product search (`rag.search_products`) is an oracle result passed in. Its exceptions are swallowed in the source and modelled as no results.
- The random ticket number is the parameter `SubAgents.Env.roll`. The same draw is used for every ticket within one supervisor turn.
- Latency measurement (`latency_ms`) is not modelled. It is a clock reading.
- The block and flag callbacks are recorded as events (`Pipeline.Event`). What they do is foreign code.
- The content filter, the model client, the RAG index, web search, configuration loading and the command-line entry point are not part of this model.
- Guardrails.DisclaimersIdempotent: proved for independent disclaimer tables, where no disclaimer can create an earlier rule's trigger. `Guardrails.DefaultDisclaimersIdempotent` proves it for the shipped table.
- Guardrails.RecheckAddsNoDisclaimer: stated for independent disclaimer tables and for a first pass that did not truncate. It also assumes that the rewrite holds no blocked term and matches no PII pattern, because with abstract regular expressions a redaction placeholder could match a pattern again.
- Guardrails.RedactPiiLeavesNoMatch, Guardrails.RedactPiiCount: stated under hypotheses on the abstract regular-expression engine. `SubClears`: a substitution removes every match of its pattern. `LaterKeepClear`: no later substitution creates a match of an earlier pattern. `Unentangled`: a substitution never changes whether a later pattern matches. With real patterns `Unentangled` can fail, for example when a card number inside an e-mail address is replaced before the e-mail pattern runs.
- Guardrails.CheckOutputFlags: the blocked-term flags are exact for terms that cannot overlap one another and are safe to replace with the marker. `Guardrails.DefaultCheckOutputFlags` shows that the shipped terms are.
- Models.GetContext: the source's optional `default` argument is left out. The core never passes one, so a missing key always reads as `None`.
- The language model is a deterministic oracle: the same prompt always gets the same reply. Sampling randomness at non-zero temperature is not modelled.
- Guardrails.CheckOutput: the length bound is stated for limits of at least 100. `Guardrails.SmallLimitOverflows` shows that smaller limits can be exceeded.
- Pipeline.RunLoop: the memory growth is stated for steps that record two messages each. `Pipeline.CyclesGrow` shows that the supervisor's cycles do.
- Pipeline.Proceed: when retries are exhausted, `retries_used` is `max_retries + 1`. The code does this, although a count of at most `max_retries` would be the natural reading of the setting.
- The fallback response contains the support e-mail address, which the output guardrail's e-mail pattern would redact. With abstract regular expressions this is not proved.
