/** The end-to-end pipeline: input guardrail, supervisor, auditor with
    retries, output guardrail. The pipeline's state is the supervisor's
    conversation memory; everything else is configuration. */
module Pipeline {
  import opened Common
  import opened Models
  import opened Llm
  import opened Guardrails
  import opened Auditor
  import opened SubAgents
  import Supervisor

  // ---------------------------------------------------------------------------
  // Configuration and state
  // ---------------------------------------------------------------------------

  /** `config.max_retries` */
  const DefaultMaxRetries := 3

  /** `max_retries or config.max_retries`: an absent or zero request falls
      back to the configured default; any other value, negative included, is
      kept. */
  function MaxRetries(requested: Option<int>): (n: int)
    ensures n != 0
    ensures requested.Some? && requested.value != 0 ==> n == requested.value
    ensures requested.None? || requested == Some(0) ==> n == DefaultMaxRetries
  {
    match requested
    case Some(v) => if v != 0 then v else DefaultMaxRetries
    case None => DefaultMaxRetries
  }

  /** What the constructor fixes: the retry limit, the auditor's rubric, and
      whether an on-block / on-flag callback was registered. */
  datatype Config = Config(maxRetries: int, rubric: Rubric, onBlock: bool, onFlag: bool)

  datatype Pipeline = Pipeline(config: Config, memory: Memory)

  /** `ReputationSafeAgentPipeline(...)`: defaults for what is not given
      (an auditor built without a rubric uses the default one), and an empty
      conversation. */
  function NewPipeline(maxRetries: Option<int>, rubric: Option<Rubric>, onBlock: bool, onFlag: bool): (p: Pipeline)
    ensures p.config.maxRetries == MaxRetries(maxRetries) && p.config.maxRetries != 0
    ensures rubric.None? ==> p.config.rubric == DefaultRubric
    ensures p.memory.messages == [] && p.memory.context == map[]
  {
    Pipeline(Config(MaxRetries(maxRetries), rubric.GetOr(DefaultRubric), onBlock, onFlag), EmptyMemory)
  }

  /** A call the pipeline makes to a registered callback. */
  datatype Event =
    | BlockedEvent(message: string, reason: string)
    | FlaggedEvent(message: string, flags: seq<string>)

  /** One supervisor-and-auditor cycle's world: the model's replies and what
      the specialists' tools see. */
  datatype World = World(env: Env, llm: Llm)

  /** `PipelineResult`; the verdicts and responses the run never produced
      are `None`. Latency is not modelled. */
  datatype PipelineResult = PipelineResult(
    response: string,
    inputResult: GuardrailResult,
    supervisorResponse: Option<AgentResponse>,
    auditorResponse: Option<AgentResponse>,
    outputResult: Option<GuardrailResult>,
    wasBlocked: bool,
    blockReason: string,
    retriesUsed: int,
    subAgentsUsed: seq<string>)

  /** The pipeline after a message, what it answered, and the callbacks it made. */
  datatype Outcome = Outcome(pipeline: Pipeline, result: PipelineResult, events: seq<Event>)

  // ---------------------------------------------------------------------------
  // Blocked and flagged input
  // ---------------------------------------------------------------------------

  const RefusalLead := "I'm sorry, but I can't process that request. "
  const RefusalMiddle := "Please rephrase your question and I'll be happy to help you "
  const RefusalTail := "with orders, products, or general support."
  const Refusal := RefusalLead + RefusalMiddle + RefusalTail

  /** `_handle_blocked_input`: a fixed refusal, reporting the verdict and its
      reason; no supervisor, auditor or output check took part. */
  function HandleBlocked(verdict: GuardrailResult): (r: PipelineResult)
    ensures r.response == Refusal && |r.response| < 160
    ensures r.wasBlocked && r.blockReason == verdict.reason && r.inputResult == verdict
    ensures r.supervisorResponse.None? && r.auditorResponse.None? && r.outputResult.None?
    ensures r.retriesUsed == 0 && r.subAgentsUsed == []
  {
    PipelineResult(Refusal, verdict, None, None, None, true, verdict.reason, 0, [])
  }

  /** `on_block(original, reason)` for a blocked input and `on_flag(message,
      flags)` for a flagged one, when registered (`_handle_flagged_input` does
      nothing else: processing continues as normal). */
  function Notify(cfg: Config, verdict: GuardrailResult, message: string): (es: seq<Event>)
    ensures |es| <= 1
    ensures es != [] <==>
      (verdict.action == Block && cfg.onBlock) || (verdict.action == Flag && cfg.onFlag)
    ensures verdict.action == Block && cfg.onBlock ==> es == [BlockedEvent(verdict.original, verdict.reason)]
    ensures verdict.action == Flag && cfg.onFlag ==> es == [FlaggedEvent(message, verdict.flags)]
  {
    if verdict.action == Block && cfg.onBlock then [BlockedEvent(verdict.original, verdict.reason)]
    else if verdict.action == Flag && cfg.onFlag then [FlaggedEvent(message, verdict.flags)]
    else []
  }

  // ---------------------------------------------------------------------------
  // The supervisor / auditor retry loop
  // ---------------------------------------------------------------------------

  /** The loop's variables: the retry counter, the number of cycles run, the
      last supervisor and auditor responses, and the supervisor's memory. */
  datatype Loop = Loop(
    retries: int,
    cycles: nat,
    supervisor: Option<AgentResponse>,
    auditor: Option<AgentResponse>,
    memory: Memory)

  /** One cycle's products: the supervisor's reply, the audit of it, and the
      supervisor's memory afterwards. */
  datatype Step = Step(draft: AgentResponse, audit: AgentResponse, memory: Memory)

  /** One cycle: the supervisor answers the message, and the auditor sees
      nothing but the answer's text. */
  function Cycle(w: World, rubric: Rubric, message: string, mem: Memory): (c: Step)
    ensures c.draft == Supervisor.Process(w.env, w.llm, mem, message).response
    ensures c.audit == Audit(w.llm, rubric, c.draft.content)
    ensures |c.memory.messages| == |mem.messages| + 2
    ensures c.memory.messages[..|mem.messages|] == mem.messages
  {
    var turn := Supervisor.Process(w.env, w.llm, mem, message);
    Step(turn.response, Audit(w.llm, rubric, turn.response.content), turn.memory)
  }

  /** The cycles of one `process` call: cycle `k` runs in world `k`. */
  function Cycles(worlds: nat -> World, rubric: Rubric, message: string): (nat, Memory) -> Step {
    (k: nat, mem: Memory) => Cycle(worlds(k), rubric, message, mem)
  }

  /** Every cycle appends to the supervisor's memory and keeps what was there. */
  ghost predicate Grows(step: (nat, Memory) -> Step) {
    forall k: nat, mem: Memory ::
      |step(k, mem).memory.messages| == |mem.messages| + 2
      && step(k, mem).memory.messages[..|mem.messages|] == mem.messages
  }

  lemma CyclesGrow(worlds: nat -> World, rubric: Rubric, message: string)
    ensures Grows(Cycles(worlds, rubric, message))
  {
    var step := Cycles(worlds, rubric, message);
    forall k: nat, mem: Memory
      ensures |step(k, mem).memory.messages| == |mem.messages| + 2
      ensures step(k, mem).memory.messages[..|mem.messages|] == mem.messages
    {
      var c := Cycle(worlds(k), rubric, message, mem);
    }
  }

  /** The loop `while retries <= max_retries`, from a state where every cycle
      so far asked for a retry. A cycle runs the supervisor, then audits its
      draft; a valid audit or one that does not ask for a retry ends the loop;
      a retry request counts one retry and goes round again while the limit
      allows. */
  function RunLoop(step: (nat, Memory) -> Step, maxRetries: int, s: Loop): (r: Loop)
    requires s.retries == s.cycles
    // the counter only grows, by at most one per cycle, and never skips the limit
    ensures s.retries <= r.retries <= r.cycles
    ensures r.cycles - s.cycles <= r.retries - s.retries + 1
    ensures s.retries <= maxRetries ==> r.retries <= maxRetries + 1
    // the loop ran unless it could not start
    ensures r.cycles == s.cycles <==> s.retries > maxRetries
    ensures r.cycles == s.cycles ==> r == s
    ensures r.cycles > s.cycles ==> r.supervisor.Some? && r.auditor.Some?
    // within the limit the loop stopped on an audit it may deliver
    ensures r.retries <= maxRetries ==>
      && r.cycles == r.retries + 1
      && r.auditor.Some? && (r.auditor.value.isValid || !RequiresRetry(r.auditor.value))
    // past the limit every cycle asked for a retry
    ensures r.retries > maxRetries ==> r.cycles == r.retries
    // each cycle adds the user's message and the reply to the memory
    ensures Grows(step) ==> |r.memory.messages| == |s.memory.messages| + 2 * (r.cycles - s.cycles)
    ensures Grows(step) ==> r.memory.messages[..|s.memory.messages|] == s.memory.messages
    decreases maxRetries - s.retries + 1
  {
    if s.retries > maxRetries then s
    else
      var c := step(s.cycles, s.memory);
      var next := Loop(s.retries, s.cycles + 1, Some(c.draft), Some(c.audit), c.memory);
      if c.audit.isValid then next
      else if RequiresRetry(c.audit) then
        var r := RunLoop(step, maxRetries, next.(retries := s.retries + 1));
        assert Grows(step) ==>
          r.memory.messages[..|s.memory.messages|] == c.memory.messages[..|s.memory.messages|];
        r
      else next
  }

  /** One round of the loop: a cycle that ends it is the result, a retry
      request goes round again with the counter raised. */
  lemma RunLoopUnfold(step: (nat, Memory) -> Step, maxRetries: int, s: Loop)
    requires s.retries == s.cycles <= maxRetries
    ensures var c := step(s.cycles, s.memory);
      var next := Loop(s.retries, s.cycles + 1, Some(c.draft), Some(c.audit), c.memory);
      RunLoop(step, maxRetries, s) ==
        if c.audit.isValid || !RequiresRetry(c.audit) then next
        else RunLoop(step, maxRetries, next.(retries := s.retries + 1))
  {
  }

  /** The same loop as the pipeline writes it, with `break` and `continue`. */
  method RetryLoop(worlds: nat -> World, cfg: Config, message: string, memory: Memory) returns (s: Loop)
    ensures s == RunLoop(Cycles(worlds, cfg.rubric, message), cfg.maxRetries, Loop(0, 0, None, None, memory))
    ensures cfg.maxRetries >= 0 ==> 1 <= s.cycles <= cfg.maxRetries + 1
    ensures cfg.maxRetries < 0 ==> s.cycles == 0 && s.auditor.None?
  {
    var retries := 0;
    var cycles := 0;
    var supervisor: Option<AgentResponse> := None;
    var auditor: Option<AgentResponse> := None;
    var mem := memory;
    ghost var step := Cycles(worlds, cfg.rubric, message);
    ghost var goal := RunLoop(step, cfg.maxRetries, Loop(0, 0, None, None, memory));
    while retries <= cfg.maxRetries
      invariant 0 <= retries == cycles
      invariant RunLoop(step, cfg.maxRetries, Loop(retries, cycles, supervisor, auditor, mem)) == goal
      decreases cfg.maxRetries - retries + 1
    {
      var c := Cycle(worlds(cycles), cfg.rubric, message, mem);
      assert c == step(cycles, mem);
      RunLoopUnfold(step, cfg.maxRetries, Loop(retries, cycles, supervisor, auditor, mem));
      supervisor := Some(c.draft);
      auditor := Some(c.audit);
      mem := c.memory;
      cycles := cycles + 1;
      if c.audit.isValid {
        assert Loop(retries, cycles, supervisor, auditor, mem) == goal;
        break;
      }
      if RequiresRetry(c.audit) {
        retries := retries + 1;
        if retries <= cfg.maxRetries {
          continue;
        }
      } else {
        assert Loop(retries, cycles, supervisor, auditor, mem) == goal;
        break;
      }
    }
    s := Loop(retries, cycles, supervisor, auditor, mem);
  }

  // ---------------------------------------------------------------------------
  // process
  // ---------------------------------------------------------------------------

  const MaxRetriesNote := "Max retries exceeded"

  /** What the auditor stage hands on: its content, or the fallback text when
      every allowed cycle asked for a retry. */
  function Draft(cfg: Config, s: Loop): (text: string)
    requires s.retries <= cfg.maxRetries ==> s.auditor.Some?
  {
    if s.retries > cfg.maxRetries then CreateFallbackResponse(Some(MaxRetriesNote)) else s.auditor.value.content
  }

  /** The text delivered after the output guardrail: its rewrite when it
      modified the text, the text itself otherwise. */
  function Deliver(verdict: GuardrailResult, text: string): string
    requires verdict.action == Modify ==> verdict.modified.Some?
  {
    if verdict.action == Modify then verdict.modified.value else text
  }

  /** Whatever the text, what the output guardrail lets through fits its
      limit: an allowed text was already short enough, a rewrite is cut. */
  lemma DeliveredFits(re: Regex, text: string)
    ensures var out := CheckOutput(re, DefaultOutputRules, text);
      out.original == text && |Deliver(out, text)| <= DefaultOutputRules.maxLength
  {
    var out := CheckOutput(re, DefaultOutputRules, text);
    if out.action == Allow {
      assert Clean(re, DefaultOutputRules, text);
    }
  }

  /** `sub_agents_used` from the last supervisor response's metadata. */
  function SubAgentsOf(r: Option<AgentResponse>): seq<string> {
    if r.Some? && r.value.metadata.Routed? then r.value.metadata.subAgentsUsed else []
  }

  /** `process` after an input that was not blocked: run the retry loop,
      take the auditor's content (or the fallback once retries are
      exhausted), pass it through the output guardrail and report. */
  function Proceed(p: Pipeline, re: Regex, worlds: nat -> World, message: string, input: GuardrailResult)
    : (o: Outcome)
    requires input.action != Block
    ensures o.pipeline.config == p.config && o.result.inputResult == input && !o.result.wasBlocked
    ensures o.events == Notify(p.config, input, message)
    // the delivered text is the output guardrail's verdict on the draft, and fits the limit
    ensures o.result.outputResult.Some? && o.result.outputResult.value.action != Block
    ensures o.result.outputResult.value.action == Modify <==> o.result.outputResult.value.modified.Some?
    ensures o.result.response == Deliver(o.result.outputResult.value, o.result.outputResult.value.original)
    ensures |o.result.response| <= DefaultOutputRules.maxLength
    // the draft is the auditor's last content, or the fallback once the retries ran out
    ensures 0 <= o.result.retriesUsed
    ensures p.config.maxRetries >= 0 ==> o.result.retriesUsed <= p.config.maxRetries + 1
    ensures o.result.retriesUsed > p.config.maxRetries ==>
      o.result.outputResult.value.original == CreateFallbackResponse(Some(MaxRetriesNote))
    ensures o.result.retriesUsed <= p.config.maxRetries ==>
      && o.result.auditorResponse.Some? && o.result.supervisorResponse.Some?
      && o.result.outputResult.value.original == o.result.auditorResponse.value.content
      && (o.result.auditorResponse.value.isValid || !RequiresRetry(o.result.auditorResponse.value))
    // the memory gains the user's message and a reply once per cycle
    ensures p.config.maxRetries < 0 ==> o.pipeline.memory == p.memory
    ensures p.config.maxRetries >= 0 ==>
      |p.memory.messages| + 2 <= |o.pipeline.memory.messages| <= |p.memory.messages| + 2 * (p.config.maxRetries + 1)
    ensures o.pipeline.memory.messages[..|p.memory.messages|] == p.memory.messages
  {
    var s := RunLoop(Cycles(worlds, p.config.rubric, message), p.config.maxRetries, Loop(0, 0, None, None, p.memory));
    CyclesGrow(worlds, p.config.rubric, message);
    var text := Draft(p.config, s);
    var out := CheckOutput(re, DefaultOutputRules, text);
    DeliveredFits(re, text);
    var response := Deliver(out, text);
    var result := PipelineResult(response, input, s.supervisor, s.auditor, Some(out), false, "", s.retries,
                                 SubAgentsOf(s.supervisor));
    Outcome(p.(memory := s.memory), result, Notify(p.config, input, message))
  }

  /** `process`: screen the input; a blocked input is refused and touches
      nothing else, any other input proceeds. */
  function Process(p: Pipeline, re: Regex, worlds: nat -> World, message: string): (o: Outcome)
    ensures var input := CheckInput(re, DefaultInputRules, message);
      && o.result.inputResult == input
      && (o.result.wasBlocked <==> Injection(re, DefaultInputRules, message))
      && o.events == Notify(p.config, input, message)
      && (!o.result.wasBlocked ==> o == Proceed(p, re, worlds, message, input))
    // a blocked input is refused, and the conversation does not record it
    ensures o.result.wasBlocked ==> o.result == HandleBlocked(o.result.inputResult) && o.pipeline == p
    ensures o.pipeline.config == p.config
    // whatever happens, the delivered text fits the output limit
    ensures |o.result.response| <= DefaultOutputRules.maxLength
  {
    var input := CheckInput(re, DefaultInputRules, message);
    if input.action == Block then
      Outcome(p, HandleBlocked(input), Notify(p.config, input, message))
    else
      Proceed(p, re, worlds, message, input)
  }

  /** A flagged input proceeds exactly as an allowed one: the verdict only
      shows up in the reported input result and in the callback events. */
  lemma FlagProceedsAsAllow(p: Pipeline, re: Regex, worlds: nat -> World, message: string,
                            flagged: GuardrailResult, allowed: GuardrailResult)
    requires flagged.action == Flag && allowed.action == Allow
    ensures var a := Proceed(p, re, worlds, message, flagged);
      var b := Proceed(p, re, worlds, message, allowed);
      && a.pipeline == b.pipeline
      && a.result.(inputResult := allowed) == b.result
      && (a.events == [] <==> !p.config.onFlag)
      && b.events == []
  {
  }

  /** Cycles whose audits all ask for a retry run until the counter passes
      the limit: `max_retries + 1` cycles, each counted as a retry. */
  lemma {:induction false} StubbornLoop(step: (nat, Memory) -> Step, maxRetries: int, s: Loop)
    requires s.retries == s.cycles <= maxRetries + 1
    requires forall k: nat, mem: Memory :: !step(k, mem).audit.isValid && RequiresRetry(step(k, mem).audit)
    ensures RunLoop(step, maxRetries, s).retries == maxRetries + 1
    ensures RunLoop(step, maxRetries, s).cycles == maxRetries + 1
    decreases maxRetries - s.retries + 1
  {
    if s.retries <= maxRetries {
      var c := step(s.cycles, s.memory);
      assert !c.audit.isValid && RequiresRetry(c.audit);
      var next := Loop(s.retries + 1, s.cycles + 1, Some(c.draft), Some(c.audit), c.memory);
      assert RunLoop(step, maxRetries, s) == RunLoop(step, maxRetries, next);
      StubbornLoop(step, maxRetries, next);
    }
  }

  /** An auditor that asks for a retry on every draft exhausts the loop: the
      supervisor runs `max_retries + 1` times, and the draft handed to the
      output guardrail is the fallback. */
  lemma StubbornAuditorExhausts(p: Pipeline, re: Regex, worlds: nat -> World, message: string)
    requires CheckInput(re, DefaultInputRules, message).action != Block
    requires p.config.maxRetries >= 0
    requires forall k: nat, d :: RequiresRetry(Audit(worlds(k).llm, p.config.rubric, d))
    ensures var o := Process(p, re, worlds, message);
      && o.result.retriesUsed == p.config.maxRetries + 1
      && o.result.outputResult.Some?
      && o.result.outputResult.value.original == CreateFallbackResponse(Some(MaxRetriesNote))
      && |o.pipeline.memory.messages| == |p.memory.messages| + 2 * (p.config.maxRetries + 1)
  {
    var step := Cycles(worlds, p.config.rubric, message);
    forall k: nat, mem: Memory
      ensures !step(k, mem).audit.isValid && RequiresRetry(step(k, mem).audit)
    {
      var c := Cycle(worlds(k), p.config.rubric, message, mem);
      assert RequiresRetry(Audit(worlds(k).llm, p.config.rubric, c.draft.content));
    }
    StubbornLoop(step, p.config.maxRetries, Loop(0, 0, None, None, p.memory));
    CyclesGrow(worlds, p.config.rubric, message);
  }

  /** A first draft that the auditor accepts is delivered after one cycle,
      with no retry, as the auditor returned it (up to the output guardrail). */
  lemma AcceptedFirstDraft(p: Pipeline, re: Regex, worlds: nat -> World, message: string)
    requires CheckInput(re, DefaultInputRules, message).action != Block
    requires p.config.maxRetries >= 0
    requires Cycle(worlds(0), p.config.rubric, message, p.memory).audit.isValid
    ensures var o := Process(p, re, worlds, message);
      var c := Cycle(worlds(0), p.config.rubric, message, p.memory);
      && o.result.retriesUsed == 0
      && o.result.supervisorResponse == Some(c.draft)
      && o.result.auditorResponse == Some(c.audit)
      && o.result.outputResult.value.original == c.audit.content
      && o.pipeline.memory == c.memory
  {
    var c := Cycle(worlds(0), p.config.rubric, message, p.memory);
    var step := Cycles(worlds, p.config.rubric, message);
    assert step(0, p.memory) == c;
    AcceptedFirstStep(step, p.config.maxRetries, p.memory);
  }

  /** The loop itself: when the first cycle's audit is valid, the loop stops
      there, with that cycle's responses and memory and no retry counted. */
  lemma AcceptedFirstStep(step: (nat, Memory) -> Step, maxRetries: int, mem: Memory)
    requires maxRetries >= 0
    requires step(0, mem).audit.isValid
    ensures var c := step(0, mem);
      RunLoop(step, maxRetries, Loop(0, 0, None, None, mem)) == Loop(0, 1, Some(c.draft), Some(c.audit), c.memory)
  {
    var c := step(0, mem);
    assert RunLoop(step, maxRetries, Loop(0, 0, None, None, mem)) == Loop(0, 1, Some(c.draft), Some(c.audit), c.memory);
  }

  /** With a negative limit the loop never runs: no supervisor or auditor
      response exists and the fallback is delivered. */
  lemma NegativeLimitSkipsLoop(p: Pipeline, re: Regex, worlds: nat -> World, message: string)
    requires CheckInput(re, DefaultInputRules, message).action != Block
    requires p.config.maxRetries < 0
    ensures var o := Process(p, re, worlds, message);
      && o.result.supervisorResponse.None? && o.result.auditorResponse.None?
      && o.result.retriesUsed == 0
      && o.result.outputResult.value.original == CreateFallbackResponse(Some(MaxRetriesNote))
      && o.pipeline.memory == p.memory
  {
  }

  // ---------------------------------------------------------------------------
  // Conversation management
  // ---------------------------------------------------------------------------

  /** `reset_conversation`: a fresh supervisor memory, same configuration. */
  function ResetConversation(p: Pipeline): (r: Pipeline)
    ensures r.config == p.config
    ensures forall k :: GetContext(r.memory, k) == None
    ensures GetConversationHistory(r) == []
  {
    p.(memory := Supervisor.ResetMemory())
  }

  /** `get_conversation_history`: the last ten turns (twenty messages), oldest
      first. */
  function GetConversationHistory(p: Pipeline): (h: seq<HistoryEntry>)
    ensures |h| == if |p.memory.messages| <= 20 then |p.memory.messages| else 20
    ensures h == Entries(p.memory.messages[|p.memory.messages| - |h|..])
  {
    DefaultHistoryWindow(p.memory);
    GetHistory(p.memory, 10)
  }
}
