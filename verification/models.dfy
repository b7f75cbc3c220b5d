/** The data model of the agent system: agent kinds, guardrail verdicts,
    conversation memory, tool-call records, mock order/product records and
    agent responses. */
module Models {
  import opened Common
  import opened Text

  // ---------------------------------------------------------------------------
  // Enumerations
  // ---------------------------------------------------------------------------

  datatype AgentType = Supervisor | OrderAgent | ProductAgent | SupportAgent | Auditor {
    /** The enum's `.value`. */
    function Value(): string {
      match this
      case Supervisor => "supervisor"
      case OrderAgent => "order_agent"
      case ProductAgent => "product_agent"
      case SupportAgent => "support_agent"
      case Auditor => "auditor"
    }

    /** The member's name, as `str()` of the enum shows it after `AgentType.`. */
    function Name(): string {
      match this
      case Supervisor => "SUPERVISOR"
      case OrderAgent => "ORDER_AGENT"
      case ProductAgent => "PRODUCT_AGENT"
      case SupportAgent => "SUPPORT_AGENT"
      case Auditor => "AUDITOR"
    }
  }

  datatype GuardrailAction = Allow | Block | Modify | Flag

  datatype Role = User | Assistant

  // ---------------------------------------------------------------------------
  // Conversation memory
  // ---------------------------------------------------------------------------

  datatype Message = Message(role: Role, content: string, metadata: map<string, string>)

  /** One entry of `get_history`: the message projected to role and content. */
  datatype HistoryEntry = HistoryEntry(role: Role, content: string)

  function Entry(m: Message): HistoryEntry {
    HistoryEntry(m.role, m.content)
  }

  function Entries(ms: seq<Message>): (r: seq<HistoryEntry>)
    ensures |r| == |ms|
    ensures forall i {:trigger r[i]} :: 0 <= i < |ms| ==> r[i] == Entry(ms[i])
  {
    seq(|ms|, i requires 0 <= i < |ms| => Entry(ms[i]))
  }

  /** `ConversationMemory`: an append-only message log and a keyed fact store. */
  datatype Memory = Memory(messages: seq<Message>, context: map<string, string>)

  const EmptyMemory := Memory([], map[])

  /** `add_message`: exactly one message is appended at the end; the earlier
      messages and the fact store are untouched. */
  function AddMessage(m: Memory, role: Role, content: string, metadata: map<string, string>): (r: Memory)
    ensures |r.messages| == |m.messages| + 1
    ensures r.messages[..|m.messages|] == m.messages
    ensures r.messages[|m.messages|] == Message(role, content, metadata)
    ensures r.context == m.context
  {
    m.(messages := m.messages + [Message(role, content, metadata)])
  }

  /** How many of `len` messages the slice `messages[-2*max_turns:]` keeps
      when the log is longer than `2*max_turns` (all of them otherwise). */
  function HistoryLength(len: nat, maxTurns: int): (k: nat)
    ensures k <= len
    // the usual case: the last min(n, 2*max_turns) messages
    ensures maxTurns >= 1 ==> k == if len <= 2 * maxTurns then len else 2 * maxTurns
    // `[-0:]` is the whole list
    ensures maxTurns == 0 ==> k == len
    // a negative window drops the first -2*max_turns messages
    ensures maxTurns < 0 ==> k == if len + 2 * maxTurns >= 0 then len + 2 * maxTurns else 0
  {
    var window := 2 * maxTurns;
    if len <= window then len
    else if window > 0 then window
    else if len + window >= 0 then len + window
    else 0
  }

  /** `messages[-2*max_turns:] if len(messages) > 2*max_turns else messages`:
      the last `HistoryLength` messages. */
  function Recent(msgs: seq<Message>, maxTurns: int): (r: seq<Message>)
    ensures |r| == HistoryLength(|msgs|, maxTurns)
    ensures r == msgs[|msgs| - |r|..]
  {
    var window := 2 * maxTurns;
    if |msgs| > window then
      if window > 0 then
        assert PyDrop(msgs, -window) == msgs[|msgs| - window..];
        PyDrop(msgs, -window)
      else
        PyDrop(msgs, -window)
    else msgs
  }

  /** `get_history(max_turns)`: the kept messages, oldest first, projected to
      role and content. */
  function GetHistory(m: Memory, maxTurns: int): (r: seq<HistoryEntry>)
    // always a suffix of the log, in the original order
    ensures |r| == HistoryLength(|m.messages|, maxTurns)
    ensures r == Entries(m.messages[|m.messages| - |r|..])
  {
    Entries(Recent(m.messages, maxTurns))
  }

  /** The default window of `get_history` is the last ten turns. */
  lemma DefaultHistoryWindow(m: Memory)
    ensures var h := GetHistory(m, 10);
      && |h| == (if |m.messages| <= 20 then |m.messages| else 20)
      && h == Entries(m.messages[|m.messages| - |h|..])
  {
    assert HistoryLength(|m.messages|, 10) == if |m.messages| <= 20 then |m.messages| else 20;
  }

  /** `set_context`: overwrite one key. */
  function SetContext(m: Memory, key: string, value: string): (r: Memory)
    ensures r.messages == m.messages
    ensures key in r.context && r.context[key] == value
    ensures forall k :: k != key ==> (k in r.context <==> k in m.context)
    ensures forall k :: k != key && k in m.context ==> r.context[k] == m.context[k]
  {
    m.(context := m.context[key := value])
  }

  /** `get_context(key)`: `dict.get`, so a missing key reads as `None`. */
  function GetContext(m: Memory, key: string): (r: Option<string>)
    ensures key in m.context ==> r == Some(m.context[key])
    ensures key !in m.context ==> r == None
  {
    if key in m.context then Some(m.context[key]) else None
  }

  /** Reading back a key just written gives the written value; every other
      key reads as before. */
  lemma SetThenGet(m: Memory, key: string, value: string, other: string)
    requires other != key
    ensures GetContext(SetContext(m, key, value), key) == Some(value)
    ensures GetContext(SetContext(m, key, value), other) == GetContext(m, other)
  {
  }

  /** After `add_message`, any history window of at least one turn ends with
      the message just added, and the entry before it is the previous last
      message when the window has room for it. */
  lemma {:induction false} HistoryEndsWithLatest(m: Memory, role: Role, content: string, maxTurns: int)
    requires maxTurns >= 1
    ensures var h := GetHistory(AddMessage(m, role, content, map[]), maxTurns);
      |h| >= 1 && h[|h| - 1] == HistoryEntry(role, content)
      && (|m.messages| >= 1 ==> |h| >= 2 && h[|h| - 2] == Entry(m.messages[|m.messages| - 1]))
  {
    var m' := AddMessage(m, role, content, map[]);
    var h := GetHistory(m', maxTurns);
    assert |h| == HistoryLength(|m'.messages|, maxTurns);
    assert |h| >= 1;
    assert h[|h| - 1] == Entry(m'.messages[|m'.messages| - 1]);
    if |m.messages| >= 1 {
      assert |h| >= 2;
      assert h[|h| - 2] == Entry(m'.messages[|m'.messages| - 2]);
      assert m'.messages[|m'.messages| - 2] == m.messages[|m.messages| - 1];
    }
  }

  // ---------------------------------------------------------------------------
  // Mock business records (prices and totals are floats and are not modelled)
  // ---------------------------------------------------------------------------

  datatype OrderItem = OrderItem(name: string, qty: nat)

  datatype Order = Order(
    orderId: string,
    status: string,
    items: seq<OrderItem>,
    shippingAddress: string,
    trackingNumber: Option<string>)

  datatype Product = Product(
    productId: string,
    name: string,
    description: string,
    category: string,
    inStock: bool,
    specs: seq<(string, string)>)

  /** One entry of a `search_products` result. */
  datatype ProductSummary = ProductSummary(productId: string, name: string, inStock: bool, category: string)

  /** One entry of a `get_products_by_category` result. */
  datatype CategoryEntry = CategoryEntry(productId: string, name: string, inStock: bool)

  datatype TrackingInfo = TrackingInfo(trackingNumber: string, carrier: string, status: string, estimatedDelivery: string)

  datatype CancelResult = CancelResult(success: bool, message: string)

  datatype Availability = Availability(productId: string, name: string, inStock: bool, message: string)

  datatype FaqEntry = FaqEntry(topic: string, content: string)

  datatype Ticket = Ticket(ticketId: string, subject: string, status: string, message: string)

  datatype ContactInfo = ContactInfo(phone: string, email: string, hours: string, liveChat: string)

  /** What a tool returned; `NoResult` is Python's `None`. */
  datatype ToolOutput =
    | NoResult
    | OrderDetails(order: Order)
    | OrderStatus(status: string)
    | Tracking(tracking: TrackingInfo)
    | Cancellation(cancel: CancelResult)
    | ProductDetails(product: Product)
    | AvailabilityOut(availability: Availability)
    | SearchResults(summaries: seq<ProductSummary>)
    | CategoryResults(entries: seq<CategoryEntry>)
    | FaqOut(faq: FaqEntry)
    | TicketOut(ticket: Ticket)
    | ContactOut(contact: ContactInfo)

  /** `ToolCall`: an audit record of one tool invocation. */
  datatype ToolCall = ToolCall(name: string, arguments: map<string, Json>, result: ToolOutput)

  // ---------------------------------------------------------------------------
  // Routing decisions and agent responses
  // ---------------------------------------------------------------------------

  /** `extracted_entities` of a routing decision; an absent or null entry is `None`. */
  datatype Entities = Entities(orderId: Option<string>, productId: Option<string>, topic: Option<string>)

  const NoEntities := Entities(None, None, None)

  /** A routing decision, as parsed from the classifier's JSON or produced by
      keyword fallback. An absent `route_to` or `intent` is `None`; absent flags
      are `Null`; absent `additional_routes` is the empty list. */
  datatype Routing = Routing(
    intent: Option<string>,
    routeTo: Option<string>,
    requiresMultiple: Json,
    additionalRoutes: seq<string>,
    entities: Entities,
    smalltalk: Json)

  /** Python truthiness of an optional string. */
  predicate Present(o: Option<string>) {
    o.Some? && o.value != ""
  }

  /** The `context` dict handed to a sub-agent. */
  datatype AgentContext = AgentContext(
    orderId: Option<string>,
    productId: Option<string>,
    history: Option<seq<HistoryEntry>>)

  datatype AuditKind = Lightweight | Full

  /** The `metadata` dict of an `AgentResponse`, by producer. */
  datatype Metadata =
    | NoMetadata
    | AuditPassed                                   // lightweight audit said ok
    | AuditParseError(kind: AuditKind)              // reply could not be parsed
    | AuditReviewed(originalAcceptable: Json, changesMade: seq<string>, requiresRetry: Json)
    | Routed(routing: Routing, subAgentsUsed: seq<string>)
    | OrderLookup(orderId: Option<string>)

  datatype AgentResponse = AgentResponse(
    content: string,
    agentType: AgentType,
    toolCalls: seq<ToolCall>,
    metadata: Metadata,
    isValid: bool,
    validationErrors: seq<string>)

  /** An `AgentResponse` built from content and producer only: the dataclass
      defaults apply. */
  function NewResponse(content: string, agentType: AgentType): (r: AgentResponse)
    ensures r.isValid
    ensures r.toolCalls == [] && r.validationErrors == [] && r.metadata == NoMetadata
    ensures r.content == content && r.agentType == agentType
  {
    AgentResponse(content, agentType, [], NoMetadata, true, [])
  }

  /** `GuardrailResult`; `modified` is `None` unless the guardrail rewrote the text. */
  datatype GuardrailResult = GuardrailResult(
    action: GuardrailAction,
    original: string,
    modified: Option<string>,
    reason: string,
    flags: seq<string>)

  /** A `GuardrailResult` built from action and text only: no rewrite, no
      reason, no flags. */
  function NewVerdict(action: GuardrailAction, original: string): (r: GuardrailResult)
    ensures r.modified == None && r.reason == "" && r.flags == []
    ensures r.action == action && r.original == original
  {
    GuardrailResult(action, original, None, "", [])
  }
}
