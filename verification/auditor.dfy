/** The auditor: deterministic rubric checks, then a lightweight or a full
    model review of the draft, failing open when a review reply cannot be
    parsed. */
module Auditor {
  import opened Common
  import opened Text
  import opened Models
  import opened Llm
  import Tools

  /** `AcceptedAnswerRubric`. Only the phrase lists and the length bounds are
      checked deterministically; the tone and disclaimer fields only shape the
      full review's prompt. */
  datatype Rubric = Rubric(
    mustNotContain: seq<string>,
    mustContainIfTopic: seq<(string, seq<string>)>,
    forbiddenTones: seq<string>,
    requiredTone: string,
    requiresDisclaimerFor: seq<string>,
    forbiddenPromises: seq<string>,
    maxLength: int,
    minLength: int)

  const DefaultRubric := Rubric(
    [ "I don't care", "That's not my problem", "You're wrong", "stupid", "idiot" ],
    [],
    [ "dismissive", "condescending", "aggressive", "sarcastic" ],
    "professional and friendly",
    [ "refund", "warranty", "legal", "guarantee" ],
    [ "we guarantee", "100% refund", "definitely will", "I promise", "absolutely certain" ],
    1500,
    20)

  /** Drafts at least this long always get the full review. */
  const LightweightLimit := 800

  const PhrasePrefix := "Contains forbidden phrase: '"
  const PromisePrefix := "Contains forbidden promise: '"

  function Quoted(prefix: string, item: string): string {
    prefix + item + "'"
  }

  function ShortIssue(n: int, min: int): string {
    "Response too short (" + IntToString(n) + " chars, min " + IntToString(min) + ")"
  }

  function LongIssue(n: int, max: int): string {
    "Response too long (" + IntToString(n) + " chars, max " + IntToString(max) + ")"
  }

  /** One issue per listed item that occurs in the draft case-insensitively,
      in list order. */
  function Mentions(draft: string, items: seq<string>, prefix: string): (r: seq<string>)
    ensures |r| <= |items|
    ensures forall s :: s in r ==> exists p :: p in items && ContainsCI(draft, p) && s == Quoted(prefix, p)
    ensures forall p :: p in items && ContainsCI(draft, p) ==> Quoted(prefix, p) in r
    ensures r == [] <==> forall j :: 0 <= j < |items| ==> !ContainsCI(draft, items[j])
    decreases |items|
  {
    if |items| == 0 then []
    else
      var rest := Mentions(draft, items[1..], prefix);
      assert forall p :: p in items[1..] ==> p in items;
      assert forall p :: p in items ==> p == items[0] || p in items[1..];
      if ContainsCI(draft, items[0]) then [Quoted(prefix, items[0])] + rest else rest
  }

  /** The draft meets every deterministic rule of the rubric. */
  predicate Conforms(rubric: Rubric, draft: string) {
    && (forall j :: 0 <= j < |rubric.mustNotContain| ==> !ContainsCI(draft, rubric.mustNotContain[j]))
    && (forall j :: 0 <= j < |rubric.forbiddenPromises| ==> !ContainsCI(draft, rubric.forbiddenPromises[j]))
    && rubric.minLength <= |draft| <= rubric.maxLength
  }

  /** `s` is an issue the rubric justifies for this draft. */
  predicate Justified(rubric: Rubric, draft: string, s: string) {
    || (exists p :: p in rubric.mustNotContain && ContainsCI(draft, p) && s == Quoted(PhrasePrefix, p))
    || (exists p :: p in rubric.forbiddenPromises && ContainsCI(draft, p) && s == Quoted(PromisePrefix, p))
    || (|draft| < rubric.minLength && s == ShortIssue(|draft|, rubric.minLength))
    || (|draft| > rubric.maxLength && s == LongIssue(|draft|, rubric.maxLength))
  }

  datatype QuickResult = QuickResult(pass: bool, issues: seq<string>)

  /** `_quick_check`: the draft passes exactly when it conforms; every issue
      is justified, and every violated rule is reported. */
  function QuickCheck(rubric: Rubric, draft: string): (r: QuickResult)
    ensures r.pass <==> r.issues == []
    ensures r.pass <==> Conforms(rubric, draft)
    ensures forall s :: s in r.issues ==> Justified(rubric, draft, s)
    ensures forall p :: p in rubric.mustNotContain && ContainsCI(draft, p) ==> Quoted(PhrasePrefix, p) in r.issues
    ensures forall p :: p in rubric.forbiddenPromises && ContainsCI(draft, p) ==> Quoted(PromisePrefix, p) in r.issues
    ensures |draft| < rubric.minLength ==> ShortIssue(|draft|, rubric.minLength) in r.issues
    ensures |draft| > rubric.maxLength ==> LongIssue(|draft|, rubric.maxLength) in r.issues
    ensures |r.issues| <= |rubric.mustNotContain| + |rubric.forbiddenPromises| + 2
  {
    var phrases := Mentions(draft, rubric.mustNotContain, PhrasePrefix);
    var promises := Mentions(draft, rubric.forbiddenPromises, PromisePrefix);
    var short := if |draft| < rubric.minLength then [ShortIssue(|draft|, rubric.minLength)] else [];
    var long := if |draft| > rubric.maxLength then [LongIssue(|draft|, rubric.maxLength)] else [];
    var issues := phrases + promises + short + long;
    assert forall s :: s in issues <==> s in phrases || s in promises || s in short || s in long;
    assert |issues| == |phrases| + |promises| + |short| + |long|;
    QuickResult(|issues| == 0, issues)
  }

  const ParseErrorNote := "Audit parse error - using original"
  const LightweightIssue := "Flagged in lightweight audit"

  /** The full review accepts: `is_acceptable` (absent: true) is truthy and
      `requires_retry` (absent: false) is not. */
  predicate Accepts(v: FullReply) {
    Truthy(FieldOr(v.isAcceptable, Bool(true))) && !Truthy(FieldOr(v.requiresRetry, Bool(false)))
  }

  /** `metadata.get("requires_retry")` is truthy. */
  predicate RequiresRetry(r: AgentResponse) {
    r.metadata.AuditReviewed? && Truthy(r.metadata.requiresRetry)
  }

  /** `_full_audit`. An unparseable reply keeps the draft, valid, with a
      warning; otherwise the reviewer's correction (absent: the draft) is the
      content, and the verdict is valid exactly when the reply accepts. */
  function FullAudit(llm: Llm, draft: string, preIssues: seq<string>): (r: AgentResponse)
    ensures r.agentType == Auditor && r.toolCalls == []
    ensures llm.fullReview(draft, preIssues).ParseError? ==>
      r.content == draft && r.isValid && r.metadata == AuditParseError(Full)
      && r.validationErrors == [ParseErrorNote]
    ensures llm.fullReview(draft, preIssues).Parsed? ==>
      var v := llm.fullReview(draft, preIssues).value;
      && (v.corrected.None? ==> r.content == draft)
      && (v.corrected.Some? ==> r.content == v.corrected.value)
      && (r.isValid <==> Accepts(v))
      && (RequiresRetry(r) <==> Truthy(FieldOr(v.requiresRetry, Bool(false))))
      && r.validationErrors == v.issues.GetOr([])
      && r.metadata.AuditReviewed? && r.metadata.changesMade == v.changes.GetOr([])
    ensures RequiresRetry(r) ==> !r.isValid
  {
    match llm.fullReview(draft, preIssues)
    case ParseError =>
      AgentResponse(draft, Auditor, [], AuditParseError(Full), true, [ParseErrorNote])
    case Parsed(v) =>
      var acceptable := FieldOr(v.isAcceptable, Bool(true));
      var retry := FieldOr(v.requiresRetry, Bool(false));
      AgentResponse(v.corrected.GetOr(draft), Auditor, [],
                    AuditReviewed(acceptable, v.changes.GetOr([]), retry),
                    Truthy(acceptable) && !Truthy(retry),
                    v.issues.GetOr([]))
  }

  /** `_lightweight_audit`. An ok (absent: ok) or unparseable reply passes the
      draft unchanged; a not-ok reply escalates to the full review with the
      reviewer's issue (absent: a stock note) as the only pre-found issue. */
  function LightweightAudit(llm: Llm, draft: string): (r: AgentResponse)
    ensures r.agentType == Auditor
    ensures llm.quickReview(draft).ParseError? ==>
      r == AgentResponse(draft, Auditor, [], AuditParseError(Lightweight), true, [])
    ensures llm.quickReview(draft).Parsed? && Truthy(FieldOr(llm.quickReview(draft).value.isOk, Bool(true))) ==>
      r.content == draft && r.isValid && r.metadata == AuditPassed && !RequiresRetry(r)
    ensures llm.quickReview(draft).Parsed? && !Truthy(FieldOr(llm.quickReview(draft).value.isOk, Bool(true))) ==>
      r == FullAudit(llm, draft, [llm.quickReview(draft).value.issue.GetOr(LightweightIssue)])
    ensures RequiresRetry(r) ==> !r.isValid
  {
    match llm.quickReview(draft)
    case ParseError =>
      AgentResponse(draft, Auditor, [], AuditParseError(Lightweight), true, [])
    case Parsed(v) =>
      if Truthy(FieldOr(v.isOk, Bool(true))) then
        AgentResponse(draft, Auditor, [], AuditPassed, true, [])
      else
        FullAudit(llm, draft, [v.issue.GetOr(LightweightIssue)])
  }

  /** `audit`: short drafts that pass the quick check get the lightweight
      review; all others get the full review with the quick-check issues. */
  function Audit(llm: Llm, rubric: Rubric, draft: string): (r: AgentResponse)
    ensures r.agentType == Auditor && r.toolCalls == []
    ensures !Conforms(rubric, draft) ==> r == FullAudit(llm, draft, QuickCheck(rubric, draft).issues)
    ensures |draft| >= LightweightLimit ==> r == FullAudit(llm, draft, QuickCheck(rubric, draft).issues)
    ensures Conforms(rubric, draft) && |draft| < LightweightLimit ==> r == LightweightAudit(llm, draft)
    // a retry request always comes with an invalid verdict
    ensures RequiresRetry(r) ==> !r.isValid
  {
    var q := QuickCheck(rubric, draft);
    if q.pass && |draft| < LightweightLimit then LightweightAudit(llm, draft)
    else FullAudit(llm, draft, q.issues)
  }

  /** The audit fails open: a model whose review replies cannot be parsed
      never changes or rejects a draft. */
  lemma AuditFailsOpen(llm: Llm, rubric: Rubric, draft: string)
    requires llm.quickReview(draft).ParseError?
    requires forall issues :: llm.fullReview(draft, issues).ParseError?
    ensures Audit(llm, rubric, draft).content == draft
    ensures Audit(llm, rubric, draft).isValid
    ensures !RequiresRetry(Audit(llm, rubric, draft))
  {
  }

  /** The audit sees nothing but the draft: two models that give the same
      review replies for this draft give the same audit, whatever else they
      do (routing, answering, composing). */
  lemma AuditSeesOnlyDraft(a: Llm, b: Llm, rubric: Rubric, draft: string)
    requires a.quickReview(draft) == b.quickReview(draft)
    requires forall issues :: a.fullReview(draft, issues) == b.fullReview(draft, issues)
    ensures Audit(a, rubric, draft) == Audit(b, rubric, draft)
  {
  }

  /** A draft containing a forbidden phrase or promise never takes the
      lightweight path, and the full reviewer is told about it. */
  lemma ViolationReachesFullReview(llm: Llm, rubric: Rubric, draft: string, p: string)
    requires p in rubric.mustNotContain || p in rubric.forbiddenPromises
    requires ContainsCI(draft, p)
    ensures exists issues ::
              && Audit(llm, rubric, draft) == FullAudit(llm, draft, issues)
              && (Quoted(PhrasePrefix, p) in issues || Quoted(PromisePrefix, p) in issues)
  {
    var q := QuickCheck(rubric, draft);
    if p in rubric.mustNotContain {
      assert Quoted(PhrasePrefix, p) in q.issues;
    } else {
      assert Quoted(PromisePrefix, p) in q.issues;
    }
  }

  const FallbackApology :=
    "I apologize, but I'm having trouble processing your request "
    + "right now. Please try again, or contact our support team "
    + "for immediate assistance."
  const FallbackEmail := "support@techstore.com"
  const FallbackPhone := "+90 212 555 0123"
  const ContactLead := "\n\nYou can reach us at "
  const ContactMid := " or call "
  const FallbackContact := ContactLead + FallbackEmail + ContactMid + FallbackPhone + "."

  /** `create_fallback_response`: the same safe text whatever the reason, and
      within the default rubric's length bounds. */
  function CreateFallbackResponse(reason: Option<string>): (r: string)
    ensures DefaultRubric.minLength <= |r| <= DefaultRubric.maxLength
    ensures |FallbackApology| <= |r| && r[..|FallbackApology|] == FallbackApology
    ensures |r| < LightweightLimit
  {
    FallbackApology + FallbackContact
  }

  /** The fallback text does not depend on the reason it is given. */
  lemma FallbackIgnoresReason(a: Option<string>, b: Option<string>)
    ensures CreateFallbackResponse(a) == CreateFallbackResponse(b)
  {
  }

  /** The fallback text points the customer at the same e-mail address and
      phone number that `get_contact_info` hands out. */
  lemma FallbackNamesSupportContact(reason: Option<string>)
    ensures Contains(CreateFallbackResponse(reason), Tools.GetContactInfo().email)
    ensures Contains(CreateFallbackResponse(reason), Tools.GetContactInfo().phone)
  {
    assert Tools.GetContactInfo().email == FallbackEmail;
    assert Tools.GetContactInfo().phone == FallbackPhone;
    SecondAndFourthContained(ContactLead, FallbackEmail, ContactMid, FallbackPhone, ".");
    ContainsPrepend(FallbackApology, FallbackContact, FallbackEmail);
    ContainsPrepend(FallbackApology, FallbackContact, FallbackPhone);
  }

  lemma SecondAndFourthContained(a: string, b: string, c: string, d: string, e: string)
    ensures Contains(a + b + c + d + e, b) && Contains(a + b + c + d + e, d)
  {
    assert StartsWith(b, b) && StartsWith(d, d);
    ContainsPrepend(a, b, b);
    ContainsAppend(a + b, c + d + e, b);
    assert a + b + c + d + e == (a + b) + (c + d + e);
    ContainsPrepend(a + b + c, d, d);
    ContainsAppend(a + b + c + d, e, d);
  }
}
