/** The three specialist sub-agents. Each picks its tool calls from the query
    and context by fixed keyword rules, runs them against the mock stores,
    renders the results into its prompt and lets the model write the answer.
    The rules are modelled exactly; the answer is the model's. */
module SubAgents {
  import opened Common
  import opened Text
  import opened Models
  import opened Tools
  import opened Llm

  /** What the tools and the prompts read that this model does not define:
      the two stores, what semantic search contributes for a (query, category)
      pair, the ticket number draw, and `json.dumps(..., indent=2)`. */
  datatype Env = Env(
    orders: OrderStore,
    products: ProductStore,
    rag: (string, Option<string>) -> Option<seq<ProductSummary>>,
    roll: TicketRoll,
    dump: ToolOutput -> string)

  // ---------------------------------------------------------------------------
  // Rendering tool results
  // ---------------------------------------------------------------------------

  function ToolHead(name: string): string {
    "Tool '" + name + "' returned"
  }

  /** `_format_tool_result`: `None` reads "returned no results."; anything
      else is dumped after "returned:" and a line break. */
  function FormatToolResult(dump: ToolOutput -> string, name: string, result: ToolOutput): (r: string)
    ensures StartsWith(r, ToolHead(name))
    ensures result == NoResult ==> r == ToolHead(name) + " no results."
    ensures result != NoResult ==> r == ToolHead(name) + ":\n" + dump(result)
  {
    if result == NoResult then ToolHead(name) + " no results."
    else ToolHead(name) + ":\n" + dump(result)
  }

  /** The rendering always tells a missing result from a present one,
      whatever the dump of the present one looks like. */
  lemma NoResultIsDistinguishable(dump: ToolOutput -> string, name: string, x: ToolOutput)
    requires x != NoResult
    ensures FormatToolResult(dump, name, NoResult) != FormatToolResult(dump, name, x)
  {
    var k := |ToolHead(name)|;
    assert FormatToolResult(dump, name, NoResult)[k] == ' ';
    assert FormatToolResult(dump, name, x)[k] == ':';
  }

  function Rendered(dump: ToolOutput -> string, call: ToolCall): string {
    FormatToolResult(dump, call.name, call.result)
  }

  /** The tool-results text of an agent that makes at most one call. */
  function SingleResult(dump: ToolOutput -> string, calls: seq<ToolCall>): string {
    if |calls| == 0 then "" else Rendered(dump, calls[0])
  }

  // ---------------------------------------------------------------------------
  // Ids in free text
  // ---------------------------------------------------------------------------

  /** An id `prefix` + three digits starts at index `i` of `s`. */
  predicate IdAt(s: string, prefix: string, i: int) {
    && 0 <= i && i + |prefix| + 3 <= |s|
    && s[i..i + |prefix|] == prefix
    && IsDigit(s[i + |prefix|]) && IsDigit(s[i + |prefix| + 1]) && IsDigit(s[i + |prefix| + 2])
  }

  function FindIdFrom(s: string, prefix: string, i: nat): (r: Option<nat>)
    requires i <= |s|
    ensures r.Some? ==> i <= r.value && IdAt(s, prefix, r.value)
    ensures r.Some? ==> forall j :: i <= j < r.value ==> !IdAt(s, prefix, j)
    ensures r.None? ==> forall j :: i <= j ==> !IdAt(s, prefix, j)
    decreases |s| - i
  {
    if IdAt(s, prefix, i) then Some(i)
    else if i == |s| then None
    else FindIdFrom(s, prefix, i + 1)
  }

  /** `re.search(prefix + r'\d{3}', s)`: the leftmost id in `s`, if any. */
  function FindId(s: string, prefix: string): (r: Option<string>)
    ensures r.None? <==> forall i :: !IdAt(s, prefix, i)
    ensures r.Some? ==>
      exists i ::
        && IdAt(s, prefix, i) && r.value == s[i..i + |prefix| + 3]
        && (forall j :: 0 <= j < i ==> !IdAt(s, prefix, j))
    ensures r.Some? ==> |r.value| == |prefix| + 3 && r.value[..|prefix|] == prefix
  {
    match FindIdFrom(s, prefix, 0)
    case Some(i) => Some(s[i..i + |prefix| + 3])
    case None => None
  }

  /** An id with no id before it is the one found. */
  lemma LeadingId(s: string, prefix: string, i: int)
    requires |prefix| > 0 && IdAt(s, prefix, i)
    requires forall j :: 0 <= j < i ==> s[j] != prefix[0]
    ensures FindId(s, prefix) == Some(s[i..i + |prefix| + 3])
  {
    assert forall j :: 0 <= j < i ==> !IdAt(s, prefix, j);
    var r := FindId(s, prefix);
    var k :| IdAt(s, prefix, k) && r.value == s[k..k + |prefix| + 3] && forall j :: 0 <= j < k ==> !IdAt(s, prefix, j);
    assert k == i;
  }

  // ---------------------------------------------------------------------------
  // OrderAgent
  // ---------------------------------------------------------------------------

  /** The order the agent works on: the context's id when it is truthy,
      otherwise the first `ORD-ddd` of the upper-cased query, otherwise the
      context's (falsy) value. */
  function OrderIdFor(query: string, ctx: AgentContext): (r: Option<string>)
    ensures Present(ctx.orderId) ==> r == ctx.orderId
    ensures !Present(ctx.orderId) && FindId(Upper(query), "ORD-").Some? ==> r == FindId(Upper(query), "ORD-")
    ensures !Present(ctx.orderId) && FindId(Upper(query), "ORD-").None? ==> r == ctx.orderId
  {
    if Present(ctx.orderId) then ctx.orderId
    else
      match FindId(Upper(query), "ORD-")
      case Some(id) => Some(id)
      case None => ctx.orderId
  }

  predicate AsksCancel(query: string) {
    Contains(Lower(query), "cancel")
  }

  predicate AsksTracking(query: string) {
    var q := Lower(query);
    Contains(q, "track") || Contains(q, "shipping") || Contains(q, "where")
  }

  predicate AsksStatus(query: string) {
    Contains(Lower(query), "status")
  }

  /** The order tool the query selects, by keyword priority. */
  function OrderToolFor(query: string): (name: string)
    ensures name == "cancel_order" <==> AsksCancel(query)
    ensures name == "get_tracking_info" <==> !AsksCancel(query) && AsksTracking(query)
    ensures name == "get_order_status" <==> !AsksCancel(query) && !AsksTracking(query) && AsksStatus(query)
    ensures name == "get_order" <==> !AsksCancel(query) && !AsksTracking(query) && !AsksStatus(query)
  {
    if AsksCancel(query) then "cancel_order"
    else if AsksTracking(query) then "get_tracking_info"
    else if AsksStatus(query) then "get_order_status"
    else "get_order"
  }

  /** Run the named order tool. Cancellation always answers; the lookups
      answer `None` exactly when the order (or its tracking number) is
      missing. */
  function RunOrderTool(orders: OrderStore, name: string, orderId: string): (r: ToolOutput)
    ensures name == "cancel_order" ==> r == Cancellation(CancelOrder(orders, orderId))
    ensures name == "get_tracking_info" ==>
      (r == NoResult <==> GetTrackingInfo(orders, orderId).None?)
      && (r != NoResult ==> r == Tracking(GetTrackingInfo(orders, orderId).value))
    ensures name == "get_order_status" ==>
      (r == NoResult <==> GetOrder(orders, orderId).None?)
      && (r != NoResult ==> r == OrderStatus(GetOrder(orders, orderId).value.status))
    ensures name != "cancel_order" && name != "get_tracking_info" && name != "get_order_status" ==>
      (r == NoResult <==> GetOrder(orders, orderId).None?)
      && (r != NoResult ==> r == OrderDetails(GetOrder(orders, orderId).value))
  {
    if name == "cancel_order" then Cancellation(CancelOrder(orders, orderId))
    else if name == "get_tracking_info" then
      (match GetTrackingInfo(orders, orderId) case Some(t) => Tracking(t) case None => NoResult)
    else if name == "get_order_status" then
      (match GetOrderStatus(orders, orderId) case Some(s) => OrderStatus(s) case None => NoResult)
    else
      (match GetOrder(orders, orderId) case Some(o) => OrderDetails(o) case None => NoResult)
  }

  /** `OrderAgent.process`: one tool call when an order id is known, none
      otherwise; the context's id takes precedence over one in the query, and
      the agent never cancels unless the query says "cancel". */
  function OrderAgentProcess(env: Env, llm: Llm, query: string, ctx: AgentContext): (r: AgentResponse)
    ensures r.agentType == OrderAgent && r.isValid && r.validationErrors == []
    ensures r.metadata == OrderLookup(OrderIdFor(query, ctx))
    ensures |r.toolCalls| == (if Present(OrderIdFor(query, ctx)) then 1 else 0)
    ensures |r.toolCalls| == 1 ==>
      var id := OrderIdFor(query, ctx).value;
      var c := r.toolCalls[0];
      && c.name == OrderToolFor(query)
      && c.arguments == map["order_id" := Str(id)]
      && c.result == RunOrderTool(env.orders, c.name, id)
    ensures forall c :: c in r.toolCalls && c.name == "cancel_order" ==> AsksCancel(query)
    ensures r.content == llm.generate(AgentPrompt(OrderAgent, query, ctx, SingleResult(env.dump, r.toolCalls)))
  {
    var orderId := OrderIdFor(query, ctx);
    var calls :=
      if Present(orderId) then
        var name := OrderToolFor(query);
        [ToolCall(name, map["order_id" := Str(orderId.value)], RunOrderTool(env.orders, name, orderId.value))]
      else [];
    var text := llm.generate(AgentPrompt(OrderAgent, query, ctx, SingleResult(env.dump, calls)));
    AgentResponse(text, OrderAgent, calls, OrderLookup(orderId), true, [])
  }

  /** An id in the query is used only when the context holds none: with
      "ORD-002" in context, "cancel ORD-001" cancels ORD-002. */
  lemma ContextOrderWins(env: Env, llm: Llm)
    ensures var r := OrderAgentProcess(env, llm, "cancel ORD-001", AgentContext(Some("ORD-002"), None, None));
      |r.toolCalls| == 1 && r.toolCalls[0].name == "cancel_order"
      && r.toolCalls[0].arguments == map["order_id" := Str("ORD-002")]
  {
    var q := "cancel ORD-001";
    assert Lower(q)[..6] == "cancel";
    assert StartsWith(Lower(q), "cancel");
  }

  lemma WhereIsUpper()
    ensures Upper("where is ORD-003?") == "WHERE IS ORD-003?"
  {
  }

  lemma WhereIsId()
    ensures FindId("WHERE IS ORD-003?", "ORD-") == Some("ORD-003")
  {
    var u := "WHERE IS ORD-003?";
    assert IdAt(u, "ORD-", 9);
    LeadingId(u, "ORD-", 9);
    assert u[9..16] == "ORD-003";
  }

  lemma WhereIsNoCancel()
    ensures !AsksCancel("where is ORD-003?")
  {
    var l := Lower("where is ORD-003?");
    assert l == "where is ord-003?";
    FirstCharAbsent(l, "cancel");
  }

  lemma WhereIsTracking()
    ensures AsksTracking("where is ORD-003?")
  {
    var l := Lower("where is ORD-003?");
    assert l == "where is ord-003?";
    assert StartsWith(l, "where");
  }

  /** With no id in context, the first id in the query is looked up. */
  lemma QueryOrderFound(env: Env, llm: Llm)
    ensures var r := OrderAgentProcess(env, llm, "where is ORD-003?", AgentContext(None, None, None));
      |r.toolCalls| == 1 && r.toolCalls[0].name == "get_tracking_info"
      && r.toolCalls[0].arguments == map["order_id" := Str("ORD-003")]
  {
    WhereIsUpper();
    WhereIsId();
    WhereIsNoCancel();
    WhereIsTracking();
  }

  // ---------------------------------------------------------------------------
  // ProductAgent
  // ---------------------------------------------------------------------------

  /** The product the agent works on: the first `PROD-ddd` of the upper-cased
      query, otherwise the context's id. Unlike the order agent, an id in the
      query takes precedence over the context. */
  function ProductIdFor(query: string, ctx: AgentContext): (r: Option<string>)
    ensures FindId(Upper(query), "PROD-").Some? ==> r == FindId(Upper(query), "PROD-")
    ensures FindId(Upper(query), "PROD-").None? ==> r == ctx.productId
  {
    match FindId(Upper(query), "PROD-")
    case Some(id) => Some(id)
    case None => ctx.productId
  }

  const Categories: seq<string> := ["electronics", "accessories"]

  /** The first category word in the lower-cased query, capitalised. */
  function CategoryFor(query: string): (r: Option<string>)
    ensures r.None? <==> forall k :: 0 <= k < |Categories| ==> !Contains(Lower(query), Categories[k])
    ensures r.Some? ==>
      exists k ::
        && 0 <= k < |Categories| && Contains(Lower(query), Categories[k])
        && r.value == Capitalize(Categories[k])
        && (forall j :: 0 <= j < k ==> !Contains(Lower(query), Categories[j]))
  {
    match FirstContained(Lower(query), Categories)
    case Some(k) => Some(Capitalize(Categories[k]))
    case None => None
  }

  /** The search phrase: the lower-cased query with "show me", "find" and
      "search for" deleted (in that order) and surrounding whitespace
      stripped. */
  function SearchTerms(query: string): (r: string)
    ensures |r| <= |query|
    ensures |r| > 0 ==> !IsSpace(r[0]) && !IsSpace(r[|r| - 1])
    ensures (!Contains(Lower(query), "show me") && !Contains(Lower(query), "find")
             && !Contains(Lower(query), "search for")) ==> r == Strip(Lower(query))
  {
    var c := DropPhrases(Lower(query));
    var r := Strip(c);
    assert |r| <= |c|;
    r
  }

  /** The three deletions of `SearchTerms`, on already lower-cased text. */
  function DropPhrases(s: string): string {
    RemoveAll(RemoveAll(RemoveAll(s, "show me"), "find"), "search for")
  }

  /** Text free of the three phrases keeps being free of them behind a space. */
  lemma SpaceLeadClean(lx: string)
    requires !Contains(lx, "show me") && !Contains(lx, "find") && !Contains(lx, "search for")
    ensures !Contains(" " + lx, "show me") && !Contains(" " + lx, "find") && !Contains(" " + lx, "search for")
  {
    AbsentPastLead(" ", lx, "show me");
    AbsentPastLead(" ", lx, "find");
    AbsentPastLead(" ", lx, "search for");
  }

  /** Deleting a word that leads a text free of it leaves the rest. */
  lemma RemoveLeadingWord(w: string, rest: string)
    requires |w| > 0 && !Contains(rest, w)
    ensures RemoveAll(w + rest, w) == rest
  {
    assert StartsWith(w + rest, w) && (w + rest)[|w|..] == rest;
  }

  /** Three deletions in a row, where the leading word is the first of the
      three words the text holds, leave the text after it. */
  lemma RemoveThreeLed(a: string, b: string, c: string, w: string, x: string)
    requires |a| > 0 && |b| > 0 && |c| > 0
    requires !Contains(x, a) && !Contains(x, b) && !Contains(x, c)
    requires || w == a
             || (w == b && !Contains(w + x, a))
             || (w == c && !Contains(w + x, a) && !Contains(w + x, b))
    ensures RemoveAll(RemoveAll(RemoveAll(w + x, a), b), c) == x
  {
    if w == a {
      RemoveLeadingWord(a, x);
    } else if w == b {
      RemoveLeadingWord(b, x);
    } else {
      RemoveLeadingWord(c, x);
    }
  }

  /** A query that opens with one of the phrases and a space, followed by text
      free of all three, searches for that text alone, lower-cased and
      stripped. */
  lemma SearchTermsAfterPhrase(w: string, x: string)
    requires w == "show me" || w == "find" || w == "search for"
    requires !Contains(Lower(x), "show me") && !Contains(Lower(x), "find")
             && !Contains(Lower(x), "search for")
    ensures SearchTerms(w + " " + x) == Strip(Lower(x))
  {
    var lx := Lower(x);
    LowerAppend(w + " ", x);
    LowerAppend(w, " ");
    assert Lower(w) == w;
    assert Lower(w + " " + x) == w + " " + lx;
    SpaceLeadClean(lx);
    if w != "show me" {
      AbsentPastLead(w + " ", lx, "show me");
    }
    if w == "search for" {
      AbsentPastLead(w + " ", lx, "find");
    }
    AppendAssoc(w, " ", lx);
    RemoveThreeLed("show me", "find", "search for", w, " " + lx);
    assert DropPhrases(w + " " + lx) == " " + lx;
    StripSpaceLead(' ', lx);
  }

  predicate AsksStock(query: string) {
    Contains(Lower(query), "stock") || Contains(Lower(query), "available")
  }

  /** The single call the product agent makes. */
  function ProductCall(env: Env, query: string, ctx: AgentContext): (c: ToolCall)
    ensures Present(ProductIdFor(query, ctx)) ==>
      var id := ProductIdFor(query, ctx).value;
      && c.arguments == map["product_id" := Str(id)]
      && (c.name == "check_availability" <==> AsksStock(query))
      && (c.name == "get_product_details" <==> !AsksStock(query))
      && (c.name == "check_availability" ==>
            (c.result == NoResult <==> FindProduct(env.products, id).None?)
            && (c.result != NoResult ==> c.result == AvailabilityOut(CheckAvailability(env.products, id).value)))
      && (c.name == "get_product_details" ==>
            (c.result == NoResult <==> FindProduct(env.products, id).None?)
            && (c.result != NoResult ==> c.result == ProductDetails(FindProduct(env.products, id).value)))
    ensures !Present(ProductIdFor(query, ctx)) ==>
      var terms := SearchTerms(query);
      var category := CategoryFor(query);
      && c.name == "search_products"
      && c.arguments == map["query" := Str(terms),
                            "category" := (if category.Some? then Str(category.value) else Null)]
      && c.result == SearchResults(SearchProducts(env.products, env.rag(terms, category), terms, category))
  {
    var productId := ProductIdFor(query, ctx);
    if Present(productId) then
      var id := productId.value;
      if AsksStock(query) then
        ToolCall("check_availability", map["product_id" := Str(id)],
                 match CheckAvailability(env.products, id) case Some(a) => AvailabilityOut(a) case None => NoResult)
      else
        ToolCall("get_product_details", map["product_id" := Str(id)],
                 match GetProductDetails(env.products, id) case Some(p) => ProductDetails(p) case None => NoResult)
    else
      var terms := SearchTerms(query);
      var category := CategoryFor(query);
      ToolCall("search_products",
               map["query" := Str(terms), "category" := (if category.Some? then Str(category.value) else Null)],
               SearchResults(SearchProducts(env.products, env.rag(terms, category), terms, category)))
  }

  /** `ProductAgent.process`: always exactly one tool call. */
  function ProductAgentProcess(env: Env, llm: Llm, query: string, ctx: AgentContext): (r: AgentResponse)
    ensures r.agentType == ProductAgent && r.isValid && r.validationErrors == [] && r.metadata == NoMetadata
    ensures |r.toolCalls| == 1 && r.toolCalls[0] == ProductCall(env, query, ctx)
    ensures r.content == llm.generate(AgentPrompt(ProductAgent, query, ctx, Rendered(env.dump, r.toolCalls[0])))
  {
    var call := ProductCall(env, query, ctx);
    var text := llm.generate(AgentPrompt(ProductAgent, query, ctx, Rendered(env.dump, call)));
    AgentResponse(text, ProductAgent, [call], NoMetadata, true, [])
  }

  lemma InStockUpper()
    ensures Upper("is PROD-003 in stock") == "IS PROD-003 IN STOCK"
  {
  }

  lemma InStockId()
    ensures FindId("IS PROD-003 IN STOCK", "PROD-") == Some("PROD-003")
  {
    var u := "IS PROD-003 IN STOCK";
    assert IdAt(u, "PROD-", 3);
    LeadingId(u, "PROD-", 3);
    assert u[3..11] == "PROD-003";
  }

  lemma InStockAsksStock()
    ensures AsksStock("is PROD-003 in stock")
  {
    var l := Lower("is PROD-003 in stock");
    assert l[15..] == "stock";
    ContainsInSuffix(l, 15, "stock");
  }

  /** An id in the query overrides the context: with PROD-002 in context,
      "is PROD-003 in stock" checks PROD-003. */
  lemma QueryProductWins(env: Env)
    ensures var c := ProductCall(env, "is PROD-003 in stock", AgentContext(None, Some("PROD-002"), None));
      c.name == "check_availability" && c.arguments == map["product_id" := Str("PROD-003")]
  {
    InStockUpper();
    InStockId();
    InStockAsksStock();
  }

  // ---------------------------------------------------------------------------
  // SupportAgent
  // ---------------------------------------------------------------------------

  const FaqTopics: seq<string> := ["return", "refund", "shipping", "delivery", "warranty", "payment"]

  predicate WantsContact(query: string) {
    var q := Lower(query);
    Contains(q, "contact") || Contains(q, "phone") || Contains(q, "email") || Contains(q, "call")
  }

  predicate WantsTicket(query: string) {
    var q := Lower(query);
    Contains(q, "ticket") || Contains(q, "complaint") || Contains(q, "escalate")
  }

  const TicketSubject := "Customer Inquiry"

  function FaqCalls(query: string): (r: seq<ToolCall>)
    ensures |r| <= 1
    ensures |r| == 1 <==> FirstContained(Lower(query), FaqTopics).Some?
    ensures |r| == 1 ==>
      var topic := FaqTopics[FirstContained(Lower(query), FaqTopics).value];
      r[0].name == "get_faq" && r[0].arguments == map["topic" := Str(topic)]
      && (r[0].result == NoResult <==> GetFaq(topic).None?)
      && (r[0].result != NoResult ==> r[0].result == FaqOut(GetFaq(topic).value))
  {
    match FirstContained(Lower(query), FaqTopics)
    case Some(k) =>
      [ToolCall("get_faq", map["topic" := Str(FaqTopics[k])],
                match GetFaq(FaqTopics[k]) case Some(f) => FaqOut(f) case None => NoResult)]
    case None => []
  }

  function ContactCall(): ToolCall {
    ToolCall("get_contact_info", map[], ContactOut(GetContactInfo()))
  }

  function TicketCall(env: Env, query: string): ToolCall {
    ToolCall("create_support_ticket",
             map["subject" := Str(TicketSubject), "description" := Str(query)],
             TicketOut(CreateSupportTicket(TicketSubject, query, env.roll)))
  }

  /** The support agent's tool-results text: the FAQ result as is, every
      later result after a blank line. */
  function SupportResults(dump: ToolOutput -> string, calls: seq<ToolCall>): string
    decreases |calls|
  {
    if |calls| == 0 then ""
    else
      var last := calls[|calls| - 1];
      SupportResults(dump, calls[..|calls| - 1])
        + (if last.name == "get_faq" then "" else "\n\n") + Rendered(dump, last)
  }

  /** The support agent's calls: the FAQ call when a topic word occurs, then
      the contact card when asked for, then a ticket when asked for, in that
      order; nothing else. */
  function SupportCalls(env: Env, query: string): (calls: seq<ToolCall>)
    ensures |calls| ==
      |FaqCalls(query)| + (if WantsContact(query) then 1 else 0) + (if WantsTicket(query) then 1 else 0)
    ensures calls[..|FaqCalls(query)|] == FaqCalls(query)
    ensures WantsContact(query) ==> calls[|FaqCalls(query)|] == ContactCall()
    ensures WantsTicket(query) ==> calls[|calls| - 1] == TicketCall(env, query)
    ensures forall c :: c in calls && c.name == "create_support_ticket" ==> WantsTicket(query)
  {
    var faq := FaqCalls(query);
    var contact := if WantsContact(query) then [ContactCall()] else [];
    var ticket := if WantsTicket(query) then [TicketCall(env, query)] else [];
    Concat3(faq, contact, ticket);
    faq + contact + ticket
  }

  /** The pieces of a three-part concatenation, found where they were put. */
  lemma Concat3<T>(a: seq<T>, b: seq<T>, c: seq<T>)
    ensures |a + b + c| == |a| + |b| + |c|
    ensures (a + b + c)[..|a|] == a
    ensures |b| == 1 ==> (a + b + c)[|a|] == b[0]
    ensures |c| == 1 ==> (a + b + c)[|a + b + c| - 1] == c[0]
    ensures forall x :: x in a + b + c ==> x in a || x in b || x in c
  {
    assert (a + b + c)[..|a|] == a;
  }

  /** `SupportAgent.process` */
  function SupportAgentProcess(env: Env, llm: Llm, query: string, ctx: AgentContext): (r: AgentResponse)
    ensures r.agentType == SupportAgent && r.isValid && r.validationErrors == [] && r.metadata == NoMetadata
    ensures r.toolCalls == SupportCalls(env, query)
    ensures r.content == llm.generate(AgentPrompt(SupportAgent, query, ctx, SupportResults(env.dump, r.toolCalls)))
  {
    var calls := SupportCalls(env, query);
    var text := llm.generate(AgentPrompt(SupportAgent, query, ctx, SupportResults(env.dump, calls)));
    AgentResponse(text, SupportAgent, calls, NoMetadata, true, [])
  }

  /** "refund" is an FAQ topic of the agent but not a key of the FAQ table,
      so a refund question that does not say "return" gets no FAQ entry. */
  lemma RefundFindsNoFaq(query: string)
    requires !Contains(Lower(query), "return") && Contains(Lower(query), "refund")
    ensures |FaqCalls(query)| == 1
    ensures FaqCalls(query)[0].arguments == map["topic" := Str("refund")]
    ensures FaqCalls(query)[0].result == NoResult
  {
    assert FaqTopics[1] == "refund";
    assert Lower("refund") == "refund";
    assert !Contains("refund", "return") by {
      assert "refund"[2] != "return"[2];
      assert "refund"[1..] == "efund";
      if Contains("efund", "return") {
        ContainsLength("efund", "return");
      }
    }
    forall j | 1 <= j < |FaqKeys|
      ensures !Contains("refund", FaqKeys[j])
    {
      if Contains("refund", FaqKeys[j]) {
        ContainsLength("refund", FaqKeys[j]);
      }
    }
  }

  // ---------------------------------------------------------------------------
  // The factory
  // ---------------------------------------------------------------------------

  predicate IsSubAgent(t: AgentType) {
    t == OrderAgent || t == ProductAgent || t == SupportAgent
  }

  /** `get_sub_agent`: the three specialists exist; asking for any other kind
      raises `ValueError` naming it. */
  function GetSubAgent(t: AgentType): (r: Result<AgentType>)
    ensures r.Success? <==> IsSubAgent(t)
    ensures r.Success? ==> r.value == t
    ensures r.Failure? ==> r.error == "Unknown agent type: AgentType." + t.Name()
  {
    if IsSubAgent(t) then Success(t) else Failure("Unknown agent type: AgentType." + t.Name())
  }

  /** Dispatch to a specialist's `process`. */
  function RunSubAgent(env: Env, llm: Llm, t: AgentType, query: string, ctx: AgentContext): (r: AgentResponse)
    requires IsSubAgent(t)
    ensures r.agentType == t && r.isValid
  {
    match t
    case OrderAgent => OrderAgentProcess(env, llm, query, ctx)
    case ProductAgent => ProductAgentProcess(env, llm, query, ctx)
    case SupportAgent => SupportAgentProcess(env, llm, query, ctx)
  }
}
