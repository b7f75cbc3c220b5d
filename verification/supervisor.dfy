/** The supervisor: owns the conversation memory, asks the routing classifier
    which specialists to consult, calls them, and has the model compose the
    reply from what they said. */
module Supervisor {
  import opened Common
  import opened Text
  import opened Models
  import opened Llm
  import opened SubAgents

  // ---------------------------------------------------------------------------
  // Routing
  // ---------------------------------------------------------------------------

  const OrderKeywords: seq<string> := ["order", "tracking", "shipped", "delivery", "cancel", "status", "ord-"]
  const ProductKeywords: seq<string> :=
    ["product", "price", "stock", "available", "buy", "search", "find", "show me", "prod-"]
  const SupportKeywords: seq<string> :=
    ["return", "refund", "warranty", "shipping", "payment", "help", "support", "contact"]

  /** The context keys the supervisor reads and writes. */
  const OrderKey := "order_id"
  const ProductKey := "product_id"
  const TopicKey := "last_topic"

  /** The three keyword lists of the fallback, in priority order. */
  datatype Keywords = Keywords(order: seq<string>, product: seq<string>, support: seq<string>)

  const FallbackKeywords := Keywords(OrderKeywords, ProductKeywords, SupportKeywords)

  /** The specialist the keyword fallback picks: order words win over product
      words, which win over support words; no keyword at all means support. */
  function KeywordAgent(k: Keywords, message: string): AgentType {
    var lower := Lower(message);
    if AnyContained(lower, k.order) then OrderAgent
    else if AnyContained(lower, k.product) then ProductAgent
    else SupportAgent
  }

  /** Keyword routing with the given lists: a single route chosen by
      priority; only the no-keyword default is marked as small talk. */
  function KeywordRouting(k: Keywords, message: string): (r: Routing)
    ensures r.routeTo == Some(KeywordAgent(k, message).Name())
    ensures r.routeTo == Some("ORDER_AGENT") <==> AnyContained(Lower(message), k.order)
    ensures r.routeTo == Some("PRODUCT_AGENT") <==>
      !AnyContained(Lower(message), k.order) && AnyContained(Lower(message), k.product)
    ensures Truthy(r.smalltalk) <==>
      !AnyContained(Lower(message), k.order) && !AnyContained(Lower(message), k.product)
      && !AnyContained(Lower(message), k.support)
    ensures Truthy(r.smalltalk) ==> r.intent == Some("general inquiry") && r.routeTo == Some("SUPPORT_AGENT")
    ensures !Truthy(r.requiresMultiple) && r.additionalRoutes == [] && r.entities == NoEntities
  {
    var lower := Lower(message);
    if AnyContained(lower, k.order) then
      Routing(Some("order inquiry"), Some("ORDER_AGENT"), Null, [], NoEntities, Null)
    else if AnyContained(lower, k.product) then
      Routing(Some("product inquiry"), Some("PRODUCT_AGENT"), Null, [], NoEntities, Null)
    else if AnyContained(lower, k.support) then
      Routing(Some("support inquiry"), Some("SUPPORT_AGENT"), Null, [], NoEntities, Null)
    else
      Routing(Some("general inquiry"), Some("SUPPORT_AGENT"), Null, [], NoEntities, Bool(true))
  }

  /** `_fallback_routing`: keyword routing with the shipped lists. */
  function FallbackRouting(message: string): Routing {
    KeywordRouting(FallbackKeywords, message)
  }

  /** `_get_agent_type`: exactly the three specialist names are recognised. */
  function AgentTypeOf(route: string): (r: Option<AgentType>)
    ensures r.Some? <==> route == "ORDER_AGENT" || route == "PRODUCT_AGENT" || route == "SUPPORT_AGENT"
    ensures r.Some? ==> IsSubAgent(r.value) && r.value.Name() == route
  {
    if route == "ORDER_AGENT" then Some(OrderAgent)
    else if route == "PRODUCT_AGENT" then Some(ProductAgent)
    else if route == "SUPPORT_AGENT" then Some(SupportAgent)
    else None
  }

  /** A specialist's name maps back to it, and no other kind has a route. */
  lemma AgentTypeOfName(t: AgentType)
    ensures IsSubAgent(t) ==> AgentTypeOf(t.Name()) == Some(t)
    ensures !IsSubAgent(t) ==> AgentTypeOf(t.Name()) == None
  {
  }

  /** What the routing classifier is told about the conversation so far. */
  function Summary(m: Memory): ContextSummary {
    ContextSummary(|m.messages|, GetContext(m, TopicKey), GetContext(m, OrderKey), GetContext(m, ProductKey))
  }

  /** `_route_query`: the classifier's decision, or the keyword fallback when
      its reply is not JSON. */
  function RouteQuery(llm: Llm, m: Memory, message: string): (r: Routing)
    ensures llm.route(message, Summary(m)).Parsed? ==> r == llm.route(message, Summary(m)).value
    ensures llm.route(message, Summary(m)).ParseError? ==> r == FallbackRouting(message)
  {
    match llm.route(message, Summary(m))
    case Parsed(v) => v
    case ParseError => FallbackRouting(message)
  }

  /** Store the truthy extracted entities; a missing or empty one keeps what
      the memory already had. */
  function Remember(m: Memory, e: Entities): (r: Memory)
    ensures r.messages == m.messages
    ensures GetContext(r, OrderKey) == if Present(e.orderId) then e.orderId else GetContext(m, OrderKey)
    ensures GetContext(r, ProductKey) == if Present(e.productId) then e.productId else GetContext(m, ProductKey)
    ensures GetContext(r, TopicKey) == if Present(e.topic) then e.topic else GetContext(m, TopicKey)
    ensures forall k :: k != OrderKey && k != ProductKey && k != TopicKey ==> GetContext(r, k) == GetContext(m, k)
  {
    var m1 := if Present(e.orderId) then SetContext(m, OrderKey, e.orderId.value) else m;
    var m2 := if Present(e.productId) then SetContext(m1, ProductKey, e.productId.value) else m1;
    if Present(e.topic) then SetContext(m2, TopicKey, e.topic.value) else m2
  }

  // ---------------------------------------------------------------------------
  // Calling the specialists
  // ---------------------------------------------------------------------------

  /** One planned specialist call; only the primary call is given history. */
  datatype Call = Call(agent: AgentType, primary: bool)

  /** The primary route names a specialist. */
  predicate HasPrimary(routing: Routing) {
    Present(routing.routeTo) && routing.routeTo.value != "NONE" && AgentTypeOf(routing.routeTo.value).Some?
  }

  /** The additional routes that name a specialist, in list order. */
  function Additional(routes: seq<string>): (r: seq<Call>)
    ensures |r| <= |routes|
    ensures forall i :: 0 <= i < |r| ==> IsSubAgent(r[i].agent) && !r[i].primary
    ensures (forall j :: 0 <= j < |routes| ==> AgentTypeOf(routes[j]).None?) ==> r == []
    ensures forall j :: 0 <= j < |routes| && AgentTypeOf(routes[j]).Some? ==> Call(AgentTypeOf(routes[j]).value, false) in r
  {
    if |routes| == 0 then []
    else
      var head := match AgentTypeOf(routes[0]) case Some(t) => [Call(t, false)] case None => [];
      var tail := Additional(routes[1..]);
      assert forall j :: 1 <= j < |routes| ==> routes[j] == routes[1..][j - 1];
      head + tail
  }

  /** `Additional` keeps list order and multiplicity: it distributes over
      concatenation, so each route contributes its own call at its own place. */
  lemma {:induction false} AdditionalAppend(a: seq<string>, b: seq<string>)
    ensures Additional(a + b) == Additional(a) + Additional(b)
    decreases |a|
  {
    if |a| == 0 {
      assert a + b == b;
    } else {
      assert (a + b)[0] == a[0];
      assert (a + b)[1..] == a[1..] + b;
      AdditionalAppend(a[1..], b);
    }
  }

  /** A single route contributes exactly its own call, or nothing when it
      names no specialist. */
  lemma AdditionalSingle(route: string)
    ensures AgentTypeOf(route).Some? ==> Additional([route]) == [Call(AgentTypeOf(route).value, false)]
    ensures AgentTypeOf(route).None? ==> Additional([route]) == []
  {
    assert [route][1..] == [];
  }

  /** The specialist calls of one turn, in the order `process` makes them:
      the primary route, then the additional routes when the decision asks
      for several. Unknown names and `"NONE"` are skipped. */
  function Plan(routing: Routing): (r: seq<Call>)
    ensures forall i :: 0 <= i < |r| ==> IsSubAgent(r[i].agent)
    ensures forall i :: 0 <= i < |r| ==> (r[i].primary <==> i == 0 && HasPrimary(routing))
    ensures HasPrimary(routing) ==> |r| >= 1 && r[0] == Call(AgentTypeOf(routing.routeTo.value).value, true)
    ensures |r| <= 1 + |routing.additionalRoutes|
    ensures !Truthy(routing.requiresMultiple) ==> |r| == if HasPrimary(routing) then 1 else 0
    // after the primary call come exactly the additional routes' calls, in list order
    ensures Truthy(routing.requiresMultiple) ==>
      r[(if HasPrimary(routing) then 1 else 0)..] == Additional(routing.additionalRoutes)
  {
    var primary := if HasPrimary(routing) then [Call(AgentTypeOf(routing.routeTo.value).value, true)] else [];
    var more := if Truthy(routing.requiresMultiple) then Additional(routing.additionalRoutes) else [];
    primary + more
  }

  /** The `context` dict a specialist receives: the remembered ids, and for
      the primary call the last three turns of history. */
  function ContextFor(m: Memory, primary: bool): AgentContext {
    AgentContext(GetContext(m, OrderKey), GetContext(m, ProductKey),
                 if primary then Some(GetHistory(m, 3)) else None)
  }

  /** Run the planned calls against the same memory, in order. */
  function Dispatch(env: Env, llm: Llm, m: Memory, message: string, plan: seq<Call>): (rs: seq<AgentResponse>)
    requires forall i :: 0 <= i < |plan| ==> IsSubAgent(plan[i].agent)
    ensures |rs| == |plan|
    ensures forall i :: 0 <= i < |plan| ==>
      rs[i] == RunSubAgent(env, llm, plan[i].agent, message, ContextFor(m, plan[i].primary))
    ensures forall i :: 0 <= i < |plan| ==> rs[i].agentType == plan[i].agent
  {
    seq(|plan|, i requires 0 <= i < |plan| => RunSubAgent(env, llm, plan[i].agent, message, ContextFor(m, plan[i].primary)))
  }

  /** The primary specialist's history ends with the message being answered
      and holds at most three turns. */
  lemma PrimarySeesCurrentMessage(m: Memory, message: string, e: Entities)
    ensures var h := ContextFor(Remember(AddMessage(m, User, message, map[]), e), true).history;
      && h.Some? && 1 <= |h.value| <= 6
      && h.value[|h.value| - 1] == HistoryEntry(User, message)
  {
    var m1 := AddMessage(m, User, message, map[]);
    HistoryEndsWithLatest(m, User, message, 3);
    assert GetHistory(Remember(m1, e), 3) == GetHistory(m1, 3);
  }

  // ---------------------------------------------------------------------------
  // Composing the reply
  // ---------------------------------------------------------------------------

  /** `[agent]: content` for one specialist reply. */
  function Tag(r: AgentResponse): string {
    "[" + r.agentType.Value() + "]: " + r.content
  }

  /** `sep.join(xs)` */
  function Join(sep: string, xs: seq<string>): string
    decreases |xs|
  {
    if |xs| == 0 then ""
    else if |xs| == 1 then xs[0]
    else xs[0] + sep + Join(sep, xs[1..])
  }

  /** Every joined piece occurs in the joined text. */
  lemma {:induction false} JoinContainsEach(sep: string, xs: seq<string>, i: nat)
    requires i < |xs|
    ensures Contains(Join(sep, xs), xs[i])
    decreases |xs|
  {
    assert StartsWith(xs[i], xs[i]);
    if |xs| > 1 {
      if i == 0 {
        ContainsAppend(xs[0], sep + Join(sep, xs[1..]), xs[0]);
        assert xs[0] + sep + Join(sep, xs[1..]) == xs[0] + (sep + Join(sep, xs[1..]));
      } else {
        JoinContainsEach(sep, xs[1..], i - 1);
        ContainsPrepend(xs[0] + sep, Join(sep, xs[1..]), xs[i]);
      }
    }
  }

  function Tags(rs: seq<AgentResponse>): (r: seq<string>)
    ensures |r| == |rs| && forall i :: 0 <= i < |rs| ==> r[i] == Tag(rs[i])
  {
    seq(|rs|, i requires 0 <= i < |rs| => Tag(rs[i]))
  }

  /** The prompt `_compose_response` sends: a greeting when the decision is
      small talk and no specialist answered, a direct answer when none
      answered otherwise, and else a composition that carries every
      specialist's tagged reply and the intent (default "general inquiry"). */
  function ComposePromptFor(message: string, routing: Routing, rs: seq<AgentResponse>): (p: Prompt)
    ensures !p.AgentPrompt? && p.message == message
    ensures p.GreetingPrompt? <==> Truthy(routing.smalltalk) && rs == []
    ensures p.DirectPrompt? <==> !Truthy(routing.smalltalk) && rs == []
    ensures p.ComposePrompt? <==> rs != []
    ensures p.ComposePrompt? ==> p.intent == routing.intent.GetOr("general inquiry")
    ensures p.ComposePrompt? ==> forall i :: 0 <= i < |rs| ==> Contains(p.subAgentContent, Tag(rs[i]))
  {
    if Truthy(routing.smalltalk) && rs == [] then GreetingPrompt(message)
    else if rs == [] then DirectPrompt(message)
    else
      var content := Join("\n\n", Tags(rs));
      assert forall i :: 0 <= i < |rs| ==> Contains(content, Tag(rs[i])) by {
        forall i | 0 <= i < |rs| ensures Contains(content, Tag(rs[i])) {
          JoinContainsEach("\n\n", Tags(rs), i);
        }
      }
      ComposePrompt(message, routing.intent.GetOr("general inquiry"), content)
  }

  /** All specialists' tool calls, concatenated in call order. */
  function AllToolCalls(rs: seq<AgentResponse>): (r: seq<ToolCall>)
    ensures forall i, j :: 0 <= i < |rs| && 0 <= j < |rs[i].toolCalls| ==> rs[i].toolCalls[j] in r
    ensures forall c :: c in r ==> exists i :: 0 <= i < |rs| && c in rs[i].toolCalls
    decreases |rs|
  {
    if |rs| == 0 then []
    else
      var rest := AllToolCalls(rs[1..]);
      assert forall i :: 1 <= i < |rs| ==> rs[i] == rs[1..][i - 1];
      rs[0].toolCalls + rest
  }

  /** Tool calls keep call order: the calls of a later specialist come after
      every call of the earlier ones. */
  lemma {:induction false} AllToolCallsAppend(rs: seq<AgentResponse>, x: AgentResponse)
    ensures AllToolCalls(rs + [x]) == AllToolCalls(rs) + x.toolCalls
    decreases |rs|
  {
    if |rs| == 0 {
      assert rs + [x] == [x];
      assert AllToolCalls([x][1..]) == [];
    } else {
      assert (rs + [x])[1..] == rs[1..] + [x];
      AllToolCallsAppend(rs[1..], x);
    }
  }

  /** `sub_agents_used`: the `.value` of each specialist that answered. */
  function AgentsUsed(rs: seq<AgentResponse>): (r: seq<string>)
    ensures |r| == |rs| && forall i :: 0 <= i < |rs| ==> r[i] == rs[i].agentType.Value()
  {
    seq(|rs|, i requires 0 <= i < |rs| => rs[i].agentType.Value())
  }

  // ---------------------------------------------------------------------------
  // One turn
  // ---------------------------------------------------------------------------

  /** The reply of one turn, given the memory the specialists see and the
      routing decision: the planned specialists are consulted in order, their
      answers are composed, and the result is reported with its routing. */
  function Reply(env: Env, llm: Llm, m: Memory, message: string, routing: Routing): (r: AgentResponse)
    ensures r.agentType == Supervisor && r.isValid && r.validationErrors == []
    ensures r.metadata.Routed? && r.metadata.routing == routing
    ensures |r.metadata.subAgentsUsed| <= 1 + |routing.additionalRoutes|
    ensures var plan := Plan(routing);
      && |r.metadata.subAgentsUsed| == |plan|
      && forall i :: 0 <= i < |plan| ==> r.metadata.subAgentsUsed[i] == plan[i].agent.Value()
    ensures exists p: Prompt :: !p.AgentPrompt? && p.message == message && r.content == llm.generate(p)
    ensures var rs := Dispatch(env, llm, m, message, Plan(routing));
      && r.toolCalls == AllToolCalls(rs)
      && r.content == llm.generate(ComposePromptFor(message, routing, rs))
  {
    var rs := Dispatch(env, llm, m, message, Plan(routing));
    var prompt := ComposePromptFor(message, routing, rs);
    AgentResponse(llm.generate(prompt), Supervisor, AllToolCalls(rs), Routed(routing, AgentsUsed(rs)), true, [])
  }

  /** The memory after a turn: the user's message is logged, the extracted
      entities are remembered, and the reply is logged after it. */
  function Record(m: Memory, message: string, e: Entities, reply: string): (r: Memory)
    ensures |r.messages| == |m.messages| + 2
    ensures r.messages[..|m.messages|] == m.messages
    ensures r.messages[|m.messages|] == Message(User, message, map[])
    ensures r.messages[|m.messages| + 1] == Message(Assistant, reply, map[])
    ensures GetContext(r, OrderKey) == (if Present(e.orderId) then e.orderId else GetContext(m, OrderKey))
    ensures GetContext(r, ProductKey) == (if Present(e.productId) then e.productId else GetContext(m, ProductKey))
    ensures GetContext(r, TopicKey) == (if Present(e.topic) then e.topic else GetContext(m, TopicKey))
  {
    var m1 := Remember(AddMessage(m, User, message, map[]), e);
    assert m1.messages[..|m.messages|] == m.messages;
    AddMessage(m1, Assistant, reply, map[])
  }

  /** The supervisor's memory after a turn, and the reply. */
  datatype Turn = Turn(memory: Memory, response: AgentResponse)

  /** `process`: record the user message, route, remember the extracted
      entities, call the planned specialists, compose, record the reply. */
  function Process(env: Env, llm: Llm, m: Memory, message: string): (t: Turn)
    // exactly two messages are appended: the user's, then the reply
    ensures |t.memory.messages| == |m.messages| + 2
    ensures t.memory.messages[..|m.messages|] == m.messages
    ensures t.memory.messages[|m.messages|] == Message(User, message, map[])
    ensures t.memory.messages[|m.messages| + 1] == Message(Assistant, t.response.content, map[])
    // the reply is built from the classifier's (or the fallback's) decision, with
    // the specialists consulted on the memory after the entities are remembered
    ensures var routing := RouteQuery(llm, AddMessage(m, User, message, map[]), message);
      t.response == Reply(env, llm, Remember(AddMessage(m, User, message, map[]), routing.entities), message, routing)
    ensures t.response.agentType == Supervisor && t.response.isValid && t.response.validationErrors == []
    ensures t.response.metadata.Routed?
    ensures t.response.metadata.routing == RouteQuery(llm, AddMessage(m, User, message, map[]), message)
    ensures |t.response.metadata.subAgentsUsed| <= 1 + |t.response.metadata.routing.additionalRoutes|
    // the specialists are reported in the order they were called
    ensures var plan := Plan(t.response.metadata.routing);
      && |t.response.metadata.subAgentsUsed| == |plan|
      && forall i :: 0 <= i < |plan| ==> t.response.metadata.subAgentsUsed[i] == plan[i].agent.Value()
    // the reply is the model's answer to one of the supervisor's own prompts
    ensures exists p: Prompt :: !p.AgentPrompt? && p.message == message && t.response.content == llm.generate(p)
    // the specialists' answers feed the composed prompt and their tool calls are reported in order
    ensures var routing := t.response.metadata.routing;
      var rs := Dispatch(env, llm, Remember(AddMessage(m, User, message, map[]), routing.entities), message, Plan(routing));
      && t.response.toolCalls == AllToolCalls(rs)
      && t.response.content == llm.generate(ComposePromptFor(message, routing, rs))
    // truthy entities overwrite the remembered ones, the rest is kept
    ensures var e := t.response.metadata.routing.entities;
      && GetContext(t.memory, OrderKey) == (if Present(e.orderId) then e.orderId else GetContext(m, OrderKey))
      && GetContext(t.memory, ProductKey) == (if Present(e.productId) then e.productId else GetContext(m, ProductKey))
      && GetContext(t.memory, TopicKey) == (if Present(e.topic) then e.topic else GetContext(m, TopicKey))
  {
    var m1 := AddMessage(m, User, message, map[]);
    var routing := RouteQuery(llm, m1, message);
    var r := Reply(env, llm, Remember(m1, routing.entities), message, routing);
    Turn(Record(m, message, routing.entities, r.content), r)
  }

  /** When the classifier's reply is not JSON, exactly one specialist is
      consulted, the one the keywords pick, and the reply is composed from its
      answer: even the no-keyword default marked as small talk never gets the
      greeting, because it also routes to support. */
  lemma FallbackAlwaysConsults(env: Env, llm: Llm, m: Memory, message: string)
    requires llm.route(message, Summary(AddMessage(m, User, message, map[]))).ParseError?
    ensures Process(env, llm, m, message).response.metadata.subAgentsUsed == [KeywordAgent(FallbackKeywords, message).Value()]
    ensures exists p: Prompt :: p.ComposePrompt? && Process(env, llm, m, message).response.content == llm.generate(p)
  {
    var m1 := AddMessage(m, User, message, map[]);
    var routing := FallbackRouting(message);
    assert RouteQuery(llm, m1, message) == routing;
    FallbackPlan(message);
    ReplyConsultsOnce(env, llm, Remember(m1, routing.entities), message, routing, KeywordAgent(FallbackKeywords, message));
  }

  /** A plan of one primary call reports exactly that specialist, and the
      reply is composed from its answer. */
  lemma ReplyConsultsOnce(env: Env, llm: Llm, m: Memory, message: string, routing: Routing, a: AgentType)
    requires Plan(routing) == [Call(a, true)]
    ensures Reply(env, llm, m, message, routing).metadata.subAgentsUsed == [a.Value()]
    ensures exists p: Prompt :: p.ComposePrompt? && Reply(env, llm, m, message, routing).content == llm.generate(p)
  {
    var rs := Dispatch(env, llm, m, message, Plan(routing));
    var p := ComposePromptFor(message, routing, rs);
    assert p.ComposePrompt?;
    var r := Reply(env, llm, m, message, routing);
    assert |r.metadata.subAgentsUsed| == 1;
    assert r.content == llm.generate(p);
  }

  /** The fallback decision plans one primary call, to the keyword agent. */
  lemma FallbackPlan(message: string)
    ensures Plan(FallbackRouting(message)) == [Call(KeywordAgent(FallbackKeywords, message), true)]
  {
    AgentTypeOfName(KeywordAgent(FallbackKeywords, message));
    assert HasPrimary(FallbackRouting(message));
  }

  /** A decision that routes to `"NONE"` without asking for several
      specialists consults nobody and makes no tool calls; the reply is the
      greeting or the direct answer. */
  lemma NoneRouteAnswersDirectly(env: Env, llm: Llm, m: Memory, message: string)
    requires var d := RouteQuery(llm, AddMessage(m, User, message, map[]), message);
      d.routeTo == Some("NONE") && !Truthy(d.requiresMultiple)
    ensures var t := Process(env, llm, m, message);
      && t.response.toolCalls == [] && t.response.metadata.subAgentsUsed == []
      && (t.response.content == llm.generate(GreetingPrompt(message))
          || t.response.content == llm.generate(DirectPrompt(message)))
  {
    var routing := RouteQuery(llm, AddMessage(m, User, message, map[]), message);
    assert !HasPrimary(routing);
    assert Plan(routing) == [];
  }

  /** An order id extracted in one turn is what the specialists of the next
      turn receive when that turn extracts none. */
  lemma OrderIdCarriesOver(env: Env, llm1: Llm, llm2: Llm, m: Memory, first: string, second: string)
    requires var d := RouteQuery(llm1, AddMessage(m, User, first, map[]), first);
      Present(d.entities.orderId)
    requires var m1 := Process(env, llm1, m, first).memory;
      !Present(RouteQuery(llm2, AddMessage(m1, User, second, map[]), second).entities.orderId)
    ensures var d := RouteQuery(llm1, AddMessage(m, User, first, map[]), first);
      var t2 := Process(env, llm2, Process(env, llm1, m, first).memory, second);
      GetContext(t2.memory, OrderKey) == d.entities.orderId
  {
  }

  /** `reset_memory`: a fresh memory, with no history and no remembered facts. */
  function ResetMemory(): (r: Memory)
    ensures forall k :: GetContext(r, k) == None
    ensures forall n :: GetHistory(r, n) == []
  {
    EmptyMemory
  }
}
