/** The deterministic input and output guardrails.

    Regular expressions are not modelled: the guardrails receive a `Regex`
    engine, a pair of total functions standing for `re.search(pattern, text)`
    and `re.sub(pattern, replacement, text)`. Checks whose pattern is a plain
    literal (high-risk intents, blocked terms, disclaimer triggers) are
    modelled exactly, as ASCII substring tests. */
module Guardrails {
  import opened Common
  import opened Text
  import opened Models

  /** The regular-expression engine: `search(pattern, text)` is the truth of
      `re.search`, `sub(pattern, replacement, text)` is `re.sub`. */
  datatype Regex = Regex(search: (string, string) -> bool, sub: (string, string, string) -> string)

  // ===========================================================================
  // Input guardrail
  // ===========================================================================

  datatype InputRules = InputRules(
    blockedPatterns: seq<string>,
    abusePatterns: seq<string>,
    highRiskIntents: seq<string>)

  const DefaultInputRules := InputRules(
    [ "ignore\\s+(previous|all)\\s+instructions",
      "you\\s+are\\s+now\\s+",
      "pretend\\s+to\\s+be",
      "act\\s+as\\s+if",
      "system\\s*:\\s*",
      "<\\s*system\\s*>" ],
    [ "\\b(idiot|stupid|dumb)\\b",
      "(threat|kill|harm)" ],
    [ "legal action", "sue", "lawyer", "attorney", "lawsuit" ])

  const InjectionReason := "Potential prompt injection detected"
  const AbuseReason := "Potentially abusive content detected"
  const HighRiskPrefix := "High-risk intent detected: "

  /** Some pattern of the list matches the text. */
  predicate AnyMatch(re: Regex, patterns: seq<string>, text: string) {
    exists i :: 0 <= i < |patterns| && re.search(patterns[i], text)
  }

  predicate Injection(re: Regex, rules: InputRules, input: string) {
    AnyMatch(re, rules.blockedPatterns, Lower(input))
  }

  predicate Abuse(re: Regex, rules: InputRules, input: string) {
    AnyMatch(re, rules.abusePatterns, Lower(input))
  }

  predicate HighRisk(rules: InputRules, input: string) {
    exists i :: 0 <= i < |rules.highRiskIntents| && Contains(Lower(input), rules.highRiskIntents[i])
  }

  function FirstMatch(re: Regex, patterns: seq<string>, text: string): (r: Option<nat>)
    ensures r.Some? <==> AnyMatch(re, patterns, text)
  {
    FirstWhere(patterns, p => re.search(p, text))
  }

  /** `InputGuardrail.check`: injection blocks; otherwise abuse flags;
      otherwise a high-risk intent flags; otherwise the input is allowed.
      Every check looks at the lower-cased input, and the verdict always
      carries the input as given. */
  function CheckInput(re: Regex, rules: InputRules, userInput: string): (r: GuardrailResult)
    ensures r.original == userInput
    ensures r.modified == None
    ensures r.action != Modify
    ensures r.action == Block <==> Injection(re, rules, userInput)
    ensures r.action == Block ==> r.flags == ["prompt_injection"] && r.reason == InjectionReason
    ensures r.flags == ["abuse"] <==> !Injection(re, rules, userInput) && Abuse(re, rules, userInput)
    ensures r.flags == ["abuse"] ==> r.action == Flag && r.reason == AbuseReason
    ensures r.flags == ["high_risk", "legal"] <==>
      !Injection(re, rules, userInput) && !Abuse(re, rules, userInput) && HighRisk(rules, userInput)
    ensures r.flags == ["high_risk", "legal"] ==>
      r.action == Flag
      && exists k :: 0 <= k < |rules.highRiskIntents|
           && Contains(Lower(userInput), rules.highRiskIntents[k])
           && r.reason == HighRiskPrefix + rules.highRiskIntents[k]
           && (forall j :: 0 <= j < k ==> !Contains(Lower(userInput), rules.highRiskIntents[j]))
    ensures r.action == Allow <==>
      !Injection(re, rules, userInput) && !Abuse(re, rules, userInput) && !HighRisk(rules, userInput)
    ensures r.action == Allow ==> r == NewVerdict(Allow, userInput)
  {
    var lower := Lower(userInput);
    if FirstMatch(re, rules.blockedPatterns, lower).Some? then
      GuardrailResult(Block, userInput, None, InjectionReason, ["prompt_injection"])
    else if FirstMatch(re, rules.abusePatterns, lower).Some? then
      GuardrailResult(Flag, userInput, None, AbuseReason, ["abuse"])
    else
      match FirstContained(lower, rules.highRiskIntents)
      case Some(k) =>
        GuardrailResult(Flag, userInput, None, HighRiskPrefix + rules.highRiskIntents[k], ["high_risk", "legal"])
      case None =>
        GuardrailResult(Allow, userInput, None, "", [])
  }

  /** A message that no regex fires on and that holds a high-risk intent is
      flagged as a legal matter. */
  lemma HighRiskFlagged(re: Regex, rules: InputRules, input: string, k: nat)
    requires !Injection(re, rules, input) && !Abuse(re, rules, input)
    requires k < |rules.highRiskIntents| && Contains(Lower(input), rules.highRiskIntents[k])
    ensures CheckInput(re, rules, input).flags == ["high_risk", "legal"]
  {
  }

  lemma IssueLower()
    ensures Lower("I have an issue with my order") == "i have an issue with my order"
  {
  }

  lemma IssueHoldsSue()
    ensures Contains("i have an issue with my order", "sue")
  {
    var lower := "i have an issue with my order";
    assert lower[12..] == "sue with my order";
    assert StartsWith(lower[12..], "sue");
    ContainsInSuffix(lower, 12, "sue");
  }

  /** The intent "sue" is a plain substring test, so a message that merely
      says "issue" is flagged as a legal threat when no regex fires. */
  lemma IssueIsFlaggedAsLegal(re: Regex)
    requires !Injection(re, DefaultInputRules, "I have an issue with my order")
    requires !Abuse(re, DefaultInputRules, "I have an issue with my order")
    ensures CheckInput(re, DefaultInputRules, "I have an issue with my order").flags == ["high_risk", "legal"]
  {
    IssueLower();
    IssueHoldsSue();
    assert DefaultInputRules.highRiskIntents[1] == "sue";
    HighRiskFlagged(re, DefaultInputRules, "I have an issue with my order", 1);
  }

  // ===========================================================================
  // Output guardrail
  // ===========================================================================

  /** The working copy of the output check: the text so far and the flags. */
  datatype Draft = Draft(text: string, flags: seq<string>)

  datatype OutputRules = OutputRules(
    blockedTerms: seq<string>,
    piiPatterns: seq<(string, string)>,     // (pattern, placeholder), dict order
    disclaimers: seq<(string, string)>,     // (trigger, disclaimer), dict order
    maxLength: int)

  /** Every disclaimer opens with a blank line and an italic note marker.
      The texts are spelled as concatenations of shorter literals, so that
      facts about them can be established piece by piece. */
  const NoteLead := "\n\n_Note: "
  const RefundHead := "Refund policies are subject to our "
  const RefundTail := "terms and conditions._"
  const WarrantyHead := "Warranty coverage varies by"
  const WarrantyProduct := " product"
  const WarrantyCheck := ". Check product documentation "
  const WarrantyTail := "for details._"
  const PriceHead := "Prices and promotions are subject to "
  const PriceTail := "change._"
  const RefundDisclaimer := NoteLead + RefundHead + RefundTail
  const WarrantyDisclaimer := NoteLead + WarrantyHead + WarrantyProduct + WarrantyCheck + WarrantyTail
  const PriceDisclaimer := NoteLead + PriceHead + PriceTail

  const DefaultDisclaimers := [
    ("refund", RefundDisclaimer),
    ("warranty", WarrantyDisclaimer),
    ("price guarantee", PriceDisclaimer) ]

  const DefaultBlockedTerms := [ "competitor_brand_name", "confidential", "internal only", "secret" ]

  const DefaultPiiPatterns := [
    ("\\b\\d{11}\\b", "[REDACTED_TC_NO]"),
    ("\\b\\d{16}\\b", "[REDACTED_CARD]"),
    ("\\b[A-Za-z0-9._%+-]+@[A-Za-z0-9.-]+\\.[A-Z|a-z]{2,}\\b", "[REDACTED_EMAIL]") ]

  const DefaultOutputRules := OutputRules(
    DefaultBlockedTerms,
    DefaultPiiPatterns,
    DefaultDisclaimers,
    2000)

  const Removed := "[REMOVED]"
  const TruncationNotice := "\n\n[Response truncated for brevity]"
  const OutputReason := "Output modified by guardrails"

  // ---------------------------------------------------------------------------
  // Stage 1: blocked terms
  // ---------------------------------------------------------------------------

  /** `re.sub(re.escape(term), repl, s, flags=re.IGNORECASE)`: every
      non-overlapping case-insensitive occurrence of `term`, scanning left to
      right, is replaced by `repl`. An empty term matches between every pair
      of characters and at both ends. */
  function ReplaceCI(s: string, term: string, repl: string): string
    decreases |s|
  {
    if |term| == 0 then
      (if |s| == 0 then repl else repl + [s[0]] + ReplaceCI(s[1..], term, repl))
    else if StartsWith(Lower(s), Lower(term)) then
      repl + ReplaceCI(s[|term|..], term, repl)
    else if |s| == 0 then []
    else [s[0]] + ReplaceCI(s[1..], term, repl)
  }

  /** A term whose removal provably leaves no trace of it: non-empty, free of
      the brackets of the removal marker, and not itself inside the marker. */
  predicate SafeTerm(term: string) {
    var t := Lower(term);
    |t| > 0 && '[' !in t && ']' !in t && !Contains(Lower(Removed), t)
  }

  lemma MarkerFirst(x: string)
    ensures |Lower(Removed + x)| > 0 && Lower(Removed + x)[0] == '['
  {
  }

  /** After replacement, a bracket-free prefix of the result was already a
      prefix of the input. */
  lemma {:induction false} ReplacedPrefix(u: string, term: string, q: string)
    requires |term| > 0 && '[' !in q
    requires StartsWith(Lower(ReplaceCI(u, term, Removed)), q)
    ensures StartsWith(Lower(u), q)
    decreases |u|
  {
    var r := ReplaceCI(u, term, Removed);
    if StartsWith(Lower(u), Lower(term)) {
      var rest := ReplaceCI(u[|term|..], term, Removed);
      if |q| > 0 {
        MarkerFirst(rest);
        assert false;
      }
    } else if |u| == 0 {
    } else if |q| > 0 {
      var rest := ReplaceCI(u[1..], term, Removed);
      assert r == [u[0]] + rest;
      LowerAppend([u[0]], rest);
      assert Lower(r)[1..] == Lower(rest);
      assert StartsWith(Lower(rest), q[1..]) by {
        assert Lower(rest)[..|q| - 1] == Lower(r)[1..|q|];
      }
      assert '[' !in q[1..];
      ReplacedPrefix(u[1..], term, q[1..]);
      LowerDrop(u, 1);
      assert Lower(u)[..|q|] == [LowerChar(u[0])] + Lower(u[1..])[..|q| - 1];
    }
  }

  /** Replacing `term` by the removal marker leaves no occurrence of `term`,
      and creates no occurrence of any other safe pattern. */
  lemma {:induction false} ReplaceLeavesNoOccurrence(s: string, term: string, p: string)
    requires |term| > 0
    requires |p| > 0 && '[' !in p && ']' !in p && !Contains(Lower(Removed), p)
    requires p == Lower(term) || !Contains(Lower(s), p)
    ensures !Contains(Lower(ReplaceCI(s, term, Removed)), p)
    decreases |s|
  {
    var r := ReplaceCI(s, term, Removed);
    if StartsWith(Lower(s), Lower(term)) {
      var rest := ReplaceCI(s[|term|..], term, Removed);
      assert |s| >= |term|;
      if p != Lower(term) {
        if Contains(Lower(s[|term|..]), p) {
          LowerDrop(s, |term|);
          ContainsInSuffix(Lower(s), |term|, p);
        }
      }
      ReplaceLeavesNoOccurrence(s[|term|..], term, p);
      LowerAppend(Removed, rest);
      assert Lower(Removed)[|Lower(Removed)| - 1] == ']';
      if Contains(Lower(r), p) {
        ContainsSplit(Lower(Removed), Lower(rest), p);
      }
    } else if |s| == 0 {
      assert Lower(r) == [];
    } else {
      var rest := ReplaceCI(s[1..], term, Removed);
      assert r == [s[0]] + rest;
      LowerAppend([s[0]], rest);
      LowerDrop(s, 1);
      ReplaceLeavesNoOccurrence(s[1..], term, p);
      if Contains(Lower(r), p) {
        assert Lower(r)[1..] == Lower(rest);
        if StartsWith(Lower(r), p) {
          ReplacedPrefix(s, term, p);
        }
      }
    }
  }

  /** One blocked term: if it occurs (case-insensitively) it is replaced and
      flagged once, otherwise nothing changes. */
  function RemoveTerm(term: string, d: Draft): Draft {
    if ContainsCI(d.text, term) then
      Draft(ReplaceCI(d.text, term, Removed), d.flags + ["removed_term:" + term])
    else d
  }

  /** The flags a stage added to a draft are the ones it appended. */
  predicate Extends(d: Draft, r: Draft) {
    |d.flags| <= |r.flags| && r.flags[..|d.flags|] == d.flags
  }

  /** Stage 1 over all blocked terms, in list order. */
  function RemoveTerms(terms: seq<string>, d: Draft): (r: Draft)
    ensures Extends(d, r)
    ensures |r.flags| <= |d.flags| + |terms|
    ensures forall i :: |d.flags| <= i < |r.flags| ==>
      exists j :: 0 <= j < |terms| && r.flags[i] == "removed_term:" + terms[j]
    // the stage fires iff some term occurs in its input
    ensures r == d <==> forall j :: 0 <= j < |terms| ==> !ContainsCI(d.text, terms[j])
    ensures r != d ==> |r.flags| > |d.flags|
    decreases |terms|
  {
    if |terms| == 0 then d
    else
      var d' := RemoveTerm(terms[0], d);
      var r := RemoveTerms(terms[1..], d');
      assert forall i :: |d'.flags| <= i < |r.flags| ==>
        exists j :: 0 <= j < |terms| && r.flags[i] == "removed_term:" + terms[j] by {
        forall i | |d'.flags| <= i < |r.flags|
          ensures exists j :: 0 <= j < |terms| && r.flags[i] == "removed_term:" + terms[j]
        {
          var j :| 0 <= j < |terms[1..]| && r.flags[i] == "removed_term:" + terms[1..][j];
          assert terms[1..][j] == terms[j + 1];
        }
      }
      assert d' != d ==> r.flags[..|d'.flags|] == d'.flags && r.flags[|d.flags|] == d'.flags[|d.flags|];
      r
  }

  /** Once the blocked-term stage has run with safe terms, none of the terms
      occurs in the text any more, whatever the order of the terms. */
  lemma {:induction false} RemoveTermsLeavesNoTerm(terms: seq<string>, d: Draft)
    requires forall j :: 0 <= j < |terms| ==> SafeTerm(terms[j])
    ensures forall j :: 0 <= j < |terms| ==> !ContainsCI(RemoveTerms(terms, d).text, terms[j])
    decreases |terms|
  {
    if |terms| > 0 {
      var t := terms[0];
      var d' := RemoveTerm(t, d);
      assert !ContainsCI(d'.text, t) by {
        if ContainsCI(d.text, t) {
          ReplaceLeavesNoOccurrence(d.text, t, Lower(t));
        }
      }
      RemoveTermsLeavesNoTerm(terms[1..], d');
      RemoveTermsKeepsAbsent(terms[1..], d', Lower(t));
      forall j | 1 <= j < |terms|
        ensures !ContainsCI(RemoveTerms(terms, d).text, terms[j])
      {
        assert terms[j] == terms[1..][j - 1];
      }
    }
  }

  /** Later removals never re-create a safe pattern that is absent. */
  lemma {:induction false} RemoveTermsKeepsAbsent(terms: seq<string>, d: Draft, p: string)
    requires forall j :: 0 <= j < |terms| ==> SafeTerm(terms[j])
    requires |p| > 0 && '[' !in p && ']' !in p && !Contains(Lower(Removed), p)
    requires !Contains(Lower(d.text), p)
    ensures !Contains(Lower(RemoveTerms(terms, d).text), p)
    decreases |terms|
  {
    if |terms| > 0 {
      var d' := RemoveTerm(terms[0], d);
      if ContainsCI(d.text, terms[0]) {
        ReplaceLeavesNoOccurrence(d.text, terms[0], p);
      }
      RemoveTermsKeepsAbsent(terms[1..], d', p);
    }
  }

  lemma LowerRemoved()
    ensures Lower(Removed) == "[removed]"
  {
  }

  /** A lower-case bracket-free term is safe when its first letter is not a
      letter of the removal marker. */
  lemma {:induction false} SafeByFirstChar(t: string)
    requires |t| > 0 && Lower(t) == t && '[' !in t && ']' !in t
    requires t[0] !in "[removed]"
    ensures SafeTerm(t)
  {
    LowerRemoved();
    FirstCharAbsent(Lower(Removed), t);
  }

  lemma LowerOfLowercase(s: string)
    requires forall i :: 0 <= i < |s| ==> !('A' <= s[i] <= 'Z')
    ensures Lower(s) == s
  {
  }

  lemma SafeLiteral(t: string)
    requires |t| > 0 && t[0] !in "[removed]"
    requires forall i :: 0 <= i < |t| ==> 'a' <= t[i] <= 'z' || t[i] == ' ' || t[i] == '_'
    ensures SafeTerm(t)
  {
    LowerOfLowercase(t);
    SafeByFirstChar(t);
  }

  lemma DefaultTermsAreSafe()
    ensures forall j :: 0 <= j < |DefaultOutputRules.blockedTerms| ==> SafeTerm(DefaultOutputRules.blockedTerms[j])
  {
    SafeLiteral("competitor_brand_name");
    SafeLiteral("confidential");
    SafeLiteral("internal only");
    SafeLiteral("secret");
  }

  /** Two lower-cased terms that can never overlap in a text: neither holds
      the other, and no proper suffix of one is a prefix of the other. */
  predicate Apart(t: string, p: string) {
    && !Contains(t, p) && !Contains(p, t)
    && (forall k :: 0 < k < |p| ==> !StartsWith(t, p[k..]))
    && (forall k :: 0 < k < |t| ==> !StartsWith(p, t[k..]))
  }

  /** Replacement copies a prefix `q` of the input when no occurrence of the
      term starts inside it. */
  lemma {:induction false} PrefixKept(u: string, term: string, q: string)
    requires |term| > 0 && StartsWith(Lower(u), q)
    requires forall k :: 0 <= k < |q| ==> !StartsWith(Lower(u)[k..], Lower(term))
    ensures StartsWith(Lower(ReplaceCI(u, term, Removed)), q)
    decreases |q|
  {
    if |q| > 0 {
      assert Lower(u)[0..] == Lower(u);
      var rest := ReplaceCI(u[1..], term, Removed);
      assert ReplaceCI(u, term, Removed) == [u[0]] + rest;
      LowerAppend([u[0]], rest);
      LowerDrop(u, 1);
      assert StartsWith(Lower(u[1..]), q[1..]) by {
        assert Lower(u[1..])[..|q| - 1] == Lower(u)[1..|q|];
      }
      forall k | 0 <= k < |q[1..]|
        ensures !StartsWith(Lower(u[1..])[k..], Lower(term))
      {
        assert Lower(u[1..])[k..] == Lower(u)[k + 1..];
      }
      PrefixKept(u[1..], term, q[1..]);
      assert Lower(ReplaceCI(u, term, Removed))[..|q|] == [LowerChar(u[0])] + Lower(rest)[..|q| - 1];
    }
  }

  /** An occurrence of `p` starting inside an occurrence of `t` makes one of
      them hold the other, or makes a suffix of `t` a prefix of `p`. */
  lemma OverlapCases(x: string, t: string, p: string, i: int)
    requires StartsWith(x, t) && OccursAt(x, p, i) && 0 <= i < |t|
    ensures Contains(t, p) || Contains(p, t) || (0 < i && StartsWith(p, t[i..]))
  {
    if i + |p| <= |t| {
      assert t[i..i + |p|] == x[i..i + |p|];
      assert OccursAt(t, p, i);
      ContainsIffOccurrence(t, p);
    } else if i == 0 {
      assert p[..|t|] == x[..|t|];
      assert StartsWith(p, t);
      ContainsIffOccurrence(p, t);
      assert OccursAt(p, t, 0);
    } else {
      assert p[..|t| - i] == x[i..|t|] == t[i..];
    }
  }

  /** An occurrence of `t` starting inside an occurrence of `p` makes `p` hold
      `t`, or makes a suffix of `p` a prefix of `t`. */
  lemma OverlapCasesRev(x: string, t: string, p: string, k: int)
    requires StartsWith(x, p) && 0 < k < |p| && StartsWith(x[k..], t)
    ensures Contains(p, t) || StartsWith(t, p[k..])
  {
    if k + |t| <= |p| {
      assert p[k..k + |t|] == x[k..k + |t|];
      assert OccursAt(p, t, k);
      ContainsIffOccurrence(p, t);
    } else {
      assert t[..|p| - k] == x[k..|p|] == p[k..];
    }
  }

  /** An occurrence at or past position `k` is an occurrence in the suffix
      from `k`. */
  lemma OccurrenceInSuffix(s: string, p: string, i: int, k: nat)
    requires OccursAt(Lower(s), p, i) && k <= i && k <= |s|
    ensures Contains(Lower(s[k..]), p)
  {
    LowerDrop(s, k);
    assert Lower(s[k..])[i - k..i - k + |p|] == Lower(s)[i..i + |p|];
    assert OccursAt(Lower(s[k..]), p, i - k);
    ContainsIffOccurrence(Lower(s[k..]), p);
  }

  /** An occurrence of `p` at the start of a text where the term does not
      start survives the replacement. */
  lemma StartOccurrenceKept(s: string, term: string, p: string)
    requires |term| > 0 && |p| > 0 && Apart(Lower(term), p)
    requires !StartsWith(Lower(s), Lower(term)) && StartsWith(Lower(s), p)
    ensures Contains(Lower(ReplaceCI(s, term, Removed)), p)
  {
    var t := Lower(term);
    forall k | 0 <= k < |p|
      ensures !StartsWith(Lower(s)[k..], t)
    {
      if k == 0 {
        assert Lower(s)[0..] == Lower(s);
      } else if StartsWith(Lower(s)[k..], t) {
        OverlapCasesRev(Lower(s), t, p, k);
        assert false;
      }
    }
    PrefixKept(s, term, p);
    assert StartsWith(Lower(ReplaceCI(s, term, Removed)), p);
  }

  /** Removing a term never destroys an occurrence of a term apart from it. */
  lemma {:induction false} ReplaceKeepsOccurrence(s: string, term: string, p: string)
    requires |term| > 0 && |p| > 0 && Apart(Lower(term), p)
    requires Contains(Lower(s), p)
    ensures Contains(Lower(ReplaceCI(s, term, Removed)), p)
    decreases |s|
  {
    var t := Lower(term);
    ContainsIffOccurrence(Lower(s), p);
    var i :| OccursAt(Lower(s), p, i);
    if StartsWith(Lower(s), t) {
      if i < |t| {
        OverlapCases(Lower(s), t, p, i);
        assert false;
      }
      var rest := ReplaceCI(s[|term|..], term, Removed);
      OccurrenceInSuffix(s, p, i, |term|);
      ReplaceKeepsOccurrence(s[|term|..], term, p);
      LowerAppend(Removed, rest);
      ContainsPrepend(Lower(Removed), Lower(rest), p);
    } else if i == 0 {
      assert StartsWith(Lower(s), p);
      StartOccurrenceKept(s, term, p);
    } else {
      var rest := ReplaceCI(s[1..], term, Removed);
      assert ReplaceCI(s, term, Removed) == [s[0]] + rest;
      OccurrenceInSuffix(s, p, i, 1);
      ReplaceKeepsOccurrence(s[1..], term, p);
      LowerAppend([s[0]], rest);
      ContainsPrepend(Lower([s[0]]), Lower(rest), p);
    }
  }

  /** The flags the blocked-term stage adds when removing one term never
      changes whether another occurs: one per term that occurs in `text`
      itself, in list order. */
  function TermFlags(terms: seq<string>, text: string): (r: seq<string>)
    ensures |r| <= |terms|
    decreases |terms|
  {
    if |terms| == 0 then []
    else (if ContainsCI(text, terms[0]) then ["removed_term:" + terms[0]] else []) + TermFlags(terms[1..], text)
  }

  /** `TermFlags` names a term exactly when that term occurs in the text. */
  lemma {:induction false} TermFlagsMembers(terms: seq<string>, text: string)
    ensures forall i :: 0 <= i < |TermFlags(terms, text)| ==>
      exists j :: 0 <= j < |terms| && ContainsCI(text, terms[j]) && TermFlags(terms, text)[i] == "removed_term:" + terms[j]
    ensures forall j :: 0 <= j < |terms| && ContainsCI(text, terms[j]) ==> "removed_term:" + terms[j] in TermFlags(terms, text)
    decreases |terms|
  {
    if |terms| > 0 {
      TermFlagsMembers(terms[1..], text);
      var head := if ContainsCI(text, terms[0]) then ["removed_term:" + terms[0]] else [];
      var rest := TermFlags(terms[1..], text);
      assert TermFlags(terms, text) == head + rest;
      forall i | 0 <= i < |TermFlags(terms, text)|
        ensures exists j :: 0 <= j < |terms| && ContainsCI(text, terms[j]) && TermFlags(terms, text)[i] == "removed_term:" + terms[j]
      {
        if i >= |head| {
          assert (head + rest)[i] == rest[i - |head|];
          var j :| 0 <= j < |terms[1..]| && ContainsCI(text, terms[1..][j]) && rest[i - |head|] == "removed_term:" + terms[1..][j];
          assert terms[1..][j] == terms[j + 1];
        } else {
          assert (head + rest)[i] == "removed_term:" + terms[0] && ContainsCI(text, terms[0]);
        }
      }
      forall j | 0 <= j < |terms| && ContainsCI(text, terms[j])
        ensures "removed_term:" + terms[j] in head + rest
      {
        if j > 0 {
          assert terms[j] == terms[1..][j - 1];
          var k :| 0 <= k < |rest| && rest[k] == "removed_term:" + terms[j];
          assert (head + rest)[|head| + k] == rest[k];
        } else {
          assert (head + rest)[0] == head[0];
        }
      }
      assert forall i :: 0 <= i < |TermFlags(terms, text)| ==>
        exists j :: 0 <= j < |terms| && ContainsCI(text, terms[j]) && TermFlags(terms, text)[i] == "removed_term:" + terms[j];
    } else {
      assert TermFlags(terms, text) == [];
    }
  }

  /** A removal flag names its term unambiguously. */
  lemma TermFlagNames(x: string, y: string)
    requires "removed_term:" + x == "removed_term:" + y
    ensures x == y
  {
    assert x == ("removed_term:" + x)[13..];
    assert y == ("removed_term:" + y)[13..];
  }

  /** A term is flagged exactly when it occurs in the text. */
  lemma TermFlagged(terms: seq<string>, text: string, j: int)
    requires 0 <= j < |terms|
    ensures "removed_term:" + terms[j] in TermFlags(terms, text) <==> ContainsCI(text, terms[j])
  {
    TermFlagsMembers(terms, text);
    if "removed_term:" + terms[j] in TermFlags(terms, text) {
      var i :| 0 <= i < |TermFlags(terms, text)| && TermFlags(terms, text)[i] == "removed_term:" + terms[j];
      var k :| 0 <= k < |terms| && ContainsCI(text, terms[k]) && TermFlags(terms, text)[i] == "removed_term:" + terms[k];
      TermFlagNames(terms[j], terms[k]);
    }
  }

  lemma TermFlagsAgree(terms: seq<string>, a: string, b: string)
    requires forall j :: 0 <= j < |terms| ==> (ContainsCI(a, terms[j]) <==> ContainsCI(b, terms[j]))
    ensures TermFlags(terms, a) == TermFlags(terms, b)
    decreases |terms|
  {
    if |terms| > 0 {
      TermFlagsAgree(terms[1..], a, b);
    }
  }

  /** No two blocked terms can overlap in any text. */
  predicate TermsApart(terms: seq<string>) {
    forall i, j :: 0 <= i < j < |terms| ==> Apart(Lower(terms[i]), Lower(terms[j]))
  }

  /** Removing the first of a list of safe, apart terms leaves every later
      term occurring exactly where it occurred before. */
  lemma FirstKeepsLaterTerms(terms: seq<string>, d: Draft)
    requires |terms| > 0 && TermsApart(terms)
    requires forall j :: 0 <= j < |terms| ==> SafeTerm(terms[j])
    ensures forall j :: 0 <= j < |terms[1..]| ==>
      (ContainsCI(RemoveTerm(terms[0], d).text, terms[1..][j]) <==> ContainsCI(d.text, terms[1..][j]))
  {
    var t := terms[0];
    forall j | 0 <= j < |terms[1..]|
      ensures ContainsCI(RemoveTerm(t, d).text, terms[1..][j]) <==> ContainsCI(d.text, terms[1..][j])
    {
      var p := Lower(terms[j + 1]);
      assert terms[1..][j] == terms[j + 1];
      assert SafeTerm(terms[j + 1]) && Apart(Lower(t), p);
      if ContainsCI(d.text, t) {
        if ContainsCI(d.text, terms[j + 1]) {
          ReplaceKeepsOccurrence(d.text, t, p);
        } else {
          ReplaceLeavesNoOccurrence(d.text, t, p);
        }
      }
    }
  }

  lemma TermsApartTail(terms: seq<string>)
    requires |terms| > 0 && TermsApart(terms)
    ensures TermsApart(terms[1..])
  {
    forall i, j | 0 <= i < j < |terms[1..]|
      ensures Apart(Lower(terms[1..][i]), Lower(terms[1..][j]))
    {
      assert terms[1..][i] == terms[i + 1] && terms[1..][j] == terms[j + 1];
    }
  }

  /** An apart term differs from every later one, so its flag is not among
      the later terms' flags. */
  lemma HeadFlagFresh(terms: seq<string>, text: string)
    requires |terms| > 0 && TermsApart(terms)
    ensures "removed_term:" + terms[0] !in TermFlags(terms[1..], text)
  {
    var rest := TermFlags(terms[1..], text);
    TermFlagsMembers(terms[1..], text);
    assert OccursAt(Lower(terms[0]), Lower(terms[0]), 0);
    ContainsIffOccurrence(Lower(terms[0]), Lower(terms[0]));
    forall i | 0 <= i < |rest|
      ensures rest[i] != "removed_term:" + terms[0]
    {
      var j :| 0 <= j < |terms[1..]| && rest[i] == "removed_term:" + terms[1..][j];
      assert terms[1..][j] == terms[j + 1];
      assert !Contains(Lower(terms[0]), Lower(terms[j + 1]));
      TermFlagsDiffer(terms[j + 1], terms[0]);
    }
  }

  lemma TermFlagsDiffer(x: string, y: string)
    requires x != y
    ensures "removed_term:" + x != "removed_term:" + y
  {
    if "removed_term:" + x == "removed_term:" + y {
      TermFlagNames(x, y);
    }
  }

  /** No term is flagged twice. */
  lemma {:induction false} TermFlagsDistinct(terms: seq<string>, text: string)
    requires TermsApart(terms)
    ensures forall i, k :: 0 <= i < k < |TermFlags(terms, text)| ==> TermFlags(terms, text)[i] != TermFlags(terms, text)[k]
    decreases |terms|
  {
    if |terms| > 0 {
      var head := if ContainsCI(text, terms[0]) then ["removed_term:" + terms[0]] else [];
      var rest := TermFlags(terms[1..], text);
      TermsApartTail(terms);
      TermFlagsDistinct(terms[1..], text);
      HeadFlagFresh(terms, text);
      assert TermFlags(terms, text) == head + rest;
      PrependFresh(head, rest);
    }
  }

  /** Putting at most one new element in front of a repetition-free list
      keeps it free of repetitions. */
  lemma PrependFresh<T>(head: seq<T>, rest: seq<T>)
    requires |head| <= 1 && (|head| == 1 ==> head[0] !in rest)
    requires forall i, k :: 0 <= i < k < |rest| ==> rest[i] != rest[k]
    ensures forall i, k :: 0 <= i < k < |head + rest| ==> (head + rest)[i] != (head + rest)[k]
  {
    forall i, k | 0 <= i < k < |head + rest|
      ensures (head + rest)[i] != (head + rest)[k]
    {
      if i < |head| {
        assert (head + rest)[k] == rest[k - 1] && rest[k - 1] in rest;
      } else {
        assert (head + rest)[i] == rest[i - |head|] && (head + rest)[k] == rest[k - |head|];
      }
    }
  }

  /** One step of `RemoveTermsFlags`. */
  lemma TermFlagsStep(terms: seq<string>, d: Draft)
    requires |terms| > 0
    requires forall j :: 0 <= j < |terms[1..]| ==>
      (ContainsCI(RemoveTerm(terms[0], d).text, terms[1..][j]) <==> ContainsCI(d.text, terms[1..][j]))
    requires var d' := RemoveTerm(terms[0], d);
      RemoveTerms(terms[1..], d').flags == d'.flags + TermFlags(terms[1..], d'.text)
    ensures RemoveTerms(terms, d).flags == d.flags + TermFlags(terms, d.text)
  {
    var d' := RemoveTerm(terms[0], d);
    var head := if ContainsCI(d.text, terms[0]) then ["removed_term:" + terms[0]] else [];
    var tail := TermFlags(terms[1..], d.text);
    var whole := RemoveTerms(terms, d).flags;
    assert whole == RemoveTerms(terms[1..], d').flags;
    assert whole == d'.flags + tail by {
      TermFlagsAgree(terms[1..], d'.text, d.text);
    }
    assert d'.flags == d.flags + head;
    assert TermFlags(terms, d.text) == head + tail;
    AppendAssoc(d.flags, head, tail);
  }

  /** For safe, pairwise apart terms the blocked-term stage adds exactly one
      flag per term that occurs in the stage's input, in list order, and no
      other flag. */
  lemma {:induction false} RemoveTermsFlags(terms: seq<string>, d: Draft)
    requires TermsApart(terms)
    requires forall j :: 0 <= j < |terms| ==> SafeTerm(terms[j])
    ensures RemoveTerms(terms, d).flags == d.flags + TermFlags(terms, d.text)
    decreases |terms|
  {
    if |terms| > 0 {
      TermsApartTail(terms);
      RemoveTermsFlags(terms[1..], RemoveTerm(terms[0], d));
      FirstKeepsLaterTerms(terms, d);
      TermFlagsStep(terms, d);
    }
  }

  /** Wherever `p` repeats the first letter of `t` past its own start, it
      does not go on with the second. */
  predicate NoLeadAfterStart(p: string, t: string)
    requires |t| >= 2
  {
    forall k :: 0 < k < |p| ==> NoLeadAt(p, t, k)
  }

  /** Then no proper suffix of `p` is a prefix of `t`. */
  lemma NoOverhang(p: string, t: string)
    requires |t| >= 2 && NoLeadAfterStart(p, t)
    ensures forall k :: 0 < k < |p| ==> !StartsWith(t, p[k..])
  {
    forall k | 0 < k < |p|
      ensures !StartsWith(t, p[k..])
    {
      var q := p[k..];
      assert NoLeadAt(p, t, k);
      if p[k] != t[0] {
        assert q[0] != t[0];
      } else {
        assert k + 1 < |p| && p[k + 1] != t[1];
        assert q[1] != t[1];
      }
    }
  }

  /** Two literals are apart when each has a letter the other lacks and
      neither overhangs the other. */
  lemma ApartLiterals(t: string, p: string, kt: nat, kp: nat)
    requires |t| >= 2 && |p| >= 2 && kt < |t| && kp < |p|
    requires t[kt] !in p && p[kp] !in t
    requires NoLeadAfterStart(p, t) && NoLeadAfterStart(t, p)
    ensures Apart(t, p)
  {
    CharAbsent(t, p, kp);
    CharAbsent(p, t, kt);
    NoOverhang(p, t);
    NoOverhang(t, p);
  }

  lemma DefaultTermsLower()
    ensures Lower("competitor_brand_name") == "competitor_brand_name"
    ensures Lower("confidential") == "confidential"
    ensures Lower("internal only") == "internal only"
    ensures Lower("secret") == "secret"
  {
    LowerOfLowercase("competitor_brand_name");
    LowerOfLowercase("confidential");
    LowerOfLowercase("internal only");
    LowerOfLowercase("secret");
  }

  /** The check of `NoLeadAfterStart` as a scan from position `k`, which
      evaluates directly on literals. */
  predicate LeadFreeFrom(p: string, t: string, k: nat)
    requires |t| >= 2
    decreases |p| - k
  {
    k >= |p| || (NoLeadAt(p, t, k) && LeadFreeFrom(p, t, k + 1))
  }

  lemma {:induction false} LeadFreeFromSound(p: string, t: string, k: nat)
    requires |t| >= 2 && LeadFreeFrom(p, t, k)
    ensures forall j :: k <= j < |p| ==> NoLeadAt(p, t, j)
    decreases |p| - k
  {
    if k < |p| {
      LeadFreeFromSound(p, t, k + 1);
      assert NoLeadAt(p, t, k);
    }
  }

  /* The scans of "competitor_brand_name" against the other terms, each taken
     in steps from the end. */

  lemma CompetitorScanConfidential()
    ensures LeadFreeFrom("competitor_brand_name", "confidential", 1)
  {
    var p := "competitor_brand_name";
    assert LeadFreeFrom(p, "confidential", 16);
    assert LeadFreeFrom(p, "confidential", 11);
    assert LeadFreeFrom(p, "confidential", 6);
  }

  lemma CompetitorScanInternal()
    ensures LeadFreeFrom("competitor_brand_name", "internal only", 1)
  {
    var p := "competitor_brand_name";
    assert LeadFreeFrom(p, "internal only", 16);
    assert LeadFreeFrom(p, "internal only", 11);
    assert LeadFreeFrom(p, "internal only", 6);
  }

  lemma CompetitorScanSecret()
    ensures LeadFreeFrom("competitor_brand_name", "secret", 1)
  {
    var p := "competitor_brand_name";
    assert LeadFreeFrom(p, "secret", 16);
    assert LeadFreeFrom(p, "secret", 11);
    assert LeadFreeFrom(p, "secret", 6);
  }

  lemma ConfidentialScanCompetitor()
    ensures LeadFreeFrom("confidential", "competitor_brand_name", 1)
  {
    var t := "competitor_brand_name";
    assert t[0] == 'c' && t[1] == 'o';
    assert LeadFreeFrom("confidential", t, 6);
  }

  lemma CompetitorLettersConfidential()
    ensures "competitor_brand_name"[3] !in "confidential"
    ensures "confidential"[3] !in "competitor_brand_name"
  {
  }

  lemma InternalScanCompetitor()
    ensures LeadFreeFrom("internal only", "competitor_brand_name", 1)
  {
    var t := "competitor_brand_name";
    assert t[0] == 'c' && t[1] == 'o';
    assert LeadFreeFrom("internal only", t, 6);
  }

  lemma CompetitorLettersInternal()
    ensures "competitor_brand_name"[0] !in "internal only"
    ensures "internal only"[7] !in "competitor_brand_name"
  {
  }

  lemma SecretScanCompetitor()
    ensures LeadFreeFrom("secret", "competitor_brand_name", 1)
  {
    var t := "competitor_brand_name";
    assert t[0] == 'c' && t[1] == 'o';
    assert LeadFreeFrom("secret", t, 6);
  }

  lemma CompetitorLettersSecret()
    ensures "competitor_brand_name"[1] !in "secret"
    ensures "secret"[0] !in "competitor_brand_name"
  {
  }

  lemma NoLeadByScan(p: string, t: string)
    requires |t| >= 2 && LeadFreeFrom(p, t, 1)
    ensures NoLeadAfterStart(p, t)
  {
    LeadFreeFromSound(p, t, 1);
  }

  lemma LiteralsCompetitorConfidential()
    ensures Apart("competitor_brand_name", "confidential")
  {
    CompetitorScanConfidential();
    NoLeadByScan("competitor_brand_name", "confidential");
    ConfidentialScanCompetitor();
    NoLeadByScan("confidential", "competitor_brand_name");
    CompetitorLettersConfidential();
    ApartLiterals("competitor_brand_name", "confidential", 3, 3);
  }

  lemma ApartCompetitorConfidential()
    ensures Apart(Lower(DefaultBlockedTerms[0]), Lower(DefaultBlockedTerms[1]))
  {
    LiteralsCompetitorConfidential();
    DefaultTermsLower();
  }

  lemma LiteralsCompetitorInternal()
    ensures Apart("competitor_brand_name", "internal only")
  {
    CompetitorScanInternal();
    NoLeadByScan("competitor_brand_name", "internal only");
    InternalScanCompetitor();
    NoLeadByScan("internal only", "competitor_brand_name");
    CompetitorLettersInternal();
    ApartLiterals("competitor_brand_name", "internal only", 0, 7);
  }

  lemma ApartCompetitorInternal()
    ensures Apart(Lower(DefaultBlockedTerms[0]), Lower(DefaultBlockedTerms[2]))
  {
    LiteralsCompetitorInternal();
    DefaultTermsLower();
  }

  lemma LiteralsCompetitorSecret()
    ensures Apart("competitor_brand_name", "secret")
  {
    CompetitorScanSecret();
    NoLeadByScan("competitor_brand_name", "secret");
    SecretScanCompetitor();
    NoLeadByScan("secret", "competitor_brand_name");
    CompetitorLettersSecret();
    ApartLiterals("competitor_brand_name", "secret", 1, 0);
  }

  lemma ApartCompetitorSecret()
    ensures Apart(Lower(DefaultBlockedTerms[0]), Lower(DefaultBlockedTerms[3]))
  {
    LiteralsCompetitorSecret();
    DefaultTermsLower();
  }

  lemma LiteralsConfidentialInternal()
    ensures Apart("confidential", "internal only")
  {
    NoLeadByScan("confidential", "internal only");
    NoLeadByScan("internal only", "confidential");
    ApartLiterals("confidential", "internal only", 0, 4);
  }

  lemma ApartConfidentialInternal()
    ensures Apart(Lower(DefaultBlockedTerms[1]), Lower(DefaultBlockedTerms[2]))
  {
    LiteralsConfidentialInternal();
    DefaultTermsLower();
  }

  lemma LiteralsConfidentialSecret()
    ensures Apart("confidential", "secret")
  {
    NoLeadByScan("confidential", "secret");
    NoLeadByScan("secret", "confidential");
    ApartLiterals("confidential", "secret", 1, 0);
  }

  lemma ApartConfidentialSecret()
    ensures Apart(Lower(DefaultBlockedTerms[1]), Lower(DefaultBlockedTerms[3]))
  {
    LiteralsConfidentialSecret();
    DefaultTermsLower();
  }

  lemma LiteralsInternalSecret()
    ensures Apart("internal only", "secret")
  {
    NoLeadByScan("internal only", "secret");
    NoLeadByScan("secret", "internal only");
    ApartLiterals("internal only", "secret", 0, 0);
  }

  lemma ApartInternalSecret()
    ensures Apart(Lower(DefaultBlockedTerms[2]), Lower(DefaultBlockedTerms[3]))
  {
    LiteralsInternalSecret();
    DefaultTermsLower();
  }

  /** The default blocked terms never overlap one another. */
  lemma DefaultTermsApart()
    ensures TermsApart(DefaultBlockedTerms)
  {
    var terms := DefaultBlockedTerms;
    forall i, j | 0 <= i < j < |terms|
      ensures Apart(Lower(terms[i]), Lower(terms[j]))
    {
      if i == 0 && j == 1 {
        ApartCompetitorConfidential();
      } else if i == 0 && j == 2 {
        ApartCompetitorInternal();
      } else if i == 0 && j == 3 {
        ApartCompetitorSecret();
      } else if i == 1 && j == 2 {
        ApartConfidentialInternal();
      } else if i == 1 && j == 3 {
        ApartConfidentialSecret();
      } else {
        assert i == 2 && j == 3;
        ApartInternalSecret();
      }
    }
  }

  /** With the default terms, the first stage of the output check flags
      exactly the terms that occur in the output, each once, in list order. */
  lemma DefaultRemoveTermsFlags(output: string)
    ensures var flags := RemoveTerms(DefaultOutputRules.blockedTerms, Draft(output, [])).flags;
      && flags == TermFlags(DefaultOutputRules.blockedTerms, output)
      && (forall j :: 0 <= j < |DefaultOutputRules.blockedTerms| ==>
            ("removed_term:" + DefaultOutputRules.blockedTerms[j] in flags
             <==> ContainsCI(output, DefaultOutputRules.blockedTerms[j])))
      && (forall i, k :: 0 <= i < k < |flags| ==> flags[i] != flags[k])
  {
    var terms := DefaultOutputRules.blockedTerms;
    DefaultTermsApart();
    DefaultTermsAreSafe();
    RemoveTermsFlags(terms, Draft(output, []));
    forall j | 0 <= j < |terms|
      ensures "removed_term:" + terms[j] in TermFlags(terms, output) <==> ContainsCI(output, terms[j])
    {
      TermFlagged(terms, output, j);
    }
    TermFlagsDistinct(terms, output);
  }

  // ---------------------------------------------------------------------------
  // Stage 2: PII redaction
  // ---------------------------------------------------------------------------

  function RedactOne(re: Regex, rule: (string, string), d: Draft): Draft {
    if re.search(rule.0, d.text) then
      Draft(re.sub(rule.0, rule.1, d.text), d.flags + ["pii_redacted"])
    else d
  }

  /** Stage 2 over all PII patterns, in dict order: each pattern that matches
      the current text is substituted and adds one `pii_redacted` flag. */
  function RedactPii(re: Regex, rules: seq<(string, string)>, d: Draft): (r: Draft)
    ensures Extends(d, r)
    ensures |r.flags| <= |d.flags| + |rules|
    ensures forall i :: |d.flags| <= i < |r.flags| ==> r.flags[i] == "pii_redacted"
    ensures r == d <==> forall j :: 0 <= j < |rules| ==> !re.search(rules[j].0, d.text)
    ensures r != d ==> |r.flags| > |d.flags|
    decreases |rules|
  {
    if |rules| == 0 then d
    else
      var d' := RedactOne(re, rules[0], d);
      var r := RedactPii(re, rules[1..], d');
      assert d' != d ==> r.flags[..|d'.flags|] == d'.flags && r.flags[|d.flags|] == d'.flags[|d.flags|];
      r
  }

  /* The regular expressions themselves are not modelled, so the facts below
     hold under named hypotheses about the engine and the pattern table. */

  /** Substituting a pattern's placeholder leaves no match of that pattern. */
  ghost predicate SubClears(re: Regex, rules: seq<(string, string)>) {
    forall j, s :: 0 <= j < |rules| ==> !re.search(rules[j].0, re.sub(rules[j].0, rules[j].1, s))
  }

  /** No substitution of `rules` creates a match of `pattern`. */
  ghost predicate KeepsClear(re: Regex, pattern: string, rules: seq<(string, string)>) {
    forall i, s :: 0 <= i < |rules| && !re.search(pattern, s) ==> !re.search(pattern, re.sub(rules[i].0, rules[i].1, s))
  }

  /** No later substitution re-creates a match of an earlier pattern. */
  ghost predicate LaterKeepClear(re: Regex, rules: seq<(string, string)>) {
    forall j :: 0 <= j < |rules| ==> KeepsClear(re, rules[j].0, rules[j + 1..])
  }

  /** Substituting a pattern never changes whether a later pattern matches. */
  ghost predicate Unentangled(re: Regex, rules: seq<(string, string)>) {
    forall i, j, s :: 0 <= i < j < |rules| ==>
      (re.search(rules[j].0, re.sub(rules[i].0, rules[i].1, s)) <==> re.search(rules[j].0, s))
  }

  /** A pattern with no match stays without one through the redaction. */
  lemma {:induction false} RedactPiiKeepsClear(re: Regex, rules: seq<(string, string)>, d: Draft, pattern: string)
    requires KeepsClear(re, pattern, rules) && !re.search(pattern, d.text)
    ensures !re.search(pattern, RedactPii(re, rules, d).text)
    decreases |rules|
  {
    if |rules| > 0 {
      assert KeepsClear(re, pattern, rules[1..]) by {
        forall i, s | 0 <= i < |rules[1..]| && !re.search(pattern, s)
          ensures !re.search(pattern, re.sub(rules[1..][i].0, rules[1..][i].1, s))
        {
          assert rules[1..][i] == rules[i + 1];
        }
      }
      RedactPiiKeepsClear(re, rules[1..], RedactOne(re, rules[0], d), pattern);
    }
  }

  /** When every substitution clears its own pattern and keeps the earlier
      ones clear, no PII pattern matches the redacted text. */
  lemma {:induction false} RedactPiiLeavesNoMatch(re: Regex, rules: seq<(string, string)>, d: Draft)
    requires SubClears(re, rules) && LaterKeepClear(re, rules)
    ensures forall j :: 0 <= j < |rules| ==> !re.search(rules[j].0, RedactPii(re, rules, d).text)
    decreases |rules|
  {
    if |rules| > 0 {
      var d' := RedactOne(re, rules[0], d);
      var tail := rules[1..];
      assert SubClears(re, tail) by {
        forall j, s | 0 <= j < |tail|
          ensures !re.search(tail[j].0, re.sub(tail[j].0, tail[j].1, s))
        {
          assert tail[j] == rules[j + 1];
        }
      }
      assert LaterKeepClear(re, tail) by {
        forall j | 0 <= j < |tail|
          ensures KeepsClear(re, tail[j].0, tail[j + 1..])
        {
          assert tail[j] == rules[j + 1] && tail[j + 1..] == rules[j + 2..];
        }
      }
      RedactPiiLeavesNoMatch(re, tail, d');
      assert !re.search(rules[0].0, d'.text);
      assert KeepsClear(re, rules[0].0, rules[1..]);
      RedactPiiKeepsClear(re, tail, d', rules[0].0);
      forall j | 1 <= j < |rules|
        ensures !re.search(rules[j].0, RedactPii(re, rules, d).text)
      {
        assert rules[j] == tail[j - 1];
      }
    }
  }

  /** The number of patterns that match `text`. */
  function Fired(re: Regex, rules: seq<(string, string)>, text: string): (r: nat)
    ensures r <= |rules|
    ensures r == 0 <==> forall j :: 0 <= j < |rules| ==> !re.search(rules[j].0, text)
    decreases |rules|
  {
    if |rules| == 0 then 0
    else
      var rest := Fired(re, rules[1..], text);
      assert rest == 0 <==> forall j :: 1 <= j < |rules| ==> !re.search(rules[j].0, text) by {
        forall j | 1 <= j < |rules| ensures rules[j] == rules[1..][j - 1] { }
      }
      (if re.search(rules[0].0, text) then 1 else 0) + rest
  }

  lemma FiredAgree(re: Regex, rules: seq<(string, string)>, a: string, b: string)
    requires forall j :: 0 <= j < |rules| ==> (re.search(rules[j].0, a) <==> re.search(rules[j].0, b))
    ensures Fired(re, rules, a) == Fired(re, rules, b)
    decreases |rules|
  {
    if |rules| > 0 {
      FiredAgree(re, rules[1..], a, b);
    }
  }

  /** When no substitution disturbs a later pattern, the redaction adds one
      `pii_redacted` flag per pattern that matches its input. */
  lemma {:induction false} RedactPiiCount(re: Regex, rules: seq<(string, string)>, d: Draft)
    requires Unentangled(re, rules)
    ensures |RedactPii(re, rules, d).flags| == |d.flags| + Fired(re, rules, d.text)
    decreases |rules|
  {
    if |rules| > 0 {
      var d' := RedactOne(re, rules[0], d);
      var tail := rules[1..];
      assert Unentangled(re, tail) by {
        forall i, j, s | 0 <= i < j < |tail|
          ensures re.search(tail[j].0, re.sub(tail[i].0, tail[i].1, s)) <==> re.search(tail[j].0, s)
        {
          assert tail[i] == rules[i + 1] && tail[j] == rules[j + 1];
        }
      }
      RedactPiiCount(re, tail, d');
      forall j | 0 <= j < |tail|
        ensures re.search(tail[j].0, d'.text) <==> re.search(tail[j].0, d.text)
      {
        assert tail[j] == rules[j + 1];
      }
      FiredAgree(re, tail, d'.text, d.text);
    }
  }

  // ---------------------------------------------------------------------------
  // Stage 3: disclaimers
  // ---------------------------------------------------------------------------

  /** A disclaimer is due when its trigger occurs (case-insensitively) and its
      text is not already present (case-sensitively). */
  predicate Due(rule: (string, string), text: string) {
    ContainsCI(text, rule.0) && !Contains(text, rule.1)
  }

  function AddDisclaimer(rule: (string, string), d: Draft): Draft {
    if Due(rule, d.text) then Draft(d.text + rule.1, d.flags + ["disclaimer_added:" + rule.0])
    else d
  }

  /** Stage 3 over all triggers, in dict order: a due disclaimer is appended
      once and flagged once. */
  function AddDisclaimers(rules: seq<(string, string)>, d: Draft): (r: Draft)
    ensures Extends(d, r)
    ensures |r.flags| <= |d.flags| + |rules|
    ensures StartsWith(r.text, d.text)
    ensures forall i :: |d.flags| <= i < |r.flags| ==>
      exists j :: 0 <= j < |rules| && r.flags[i] == "disclaimer_added:" + rules[j].0
    ensures r == d <==> forall j :: 0 <= j < |rules| ==> !Due(rules[j], d.text)
    ensures r != d ==> |r.flags| > |d.flags|
    decreases |rules|
  {
    if |rules| == 0 then d
    else
      var d' := AddDisclaimer(rules[0], d);
      var r := AddDisclaimers(rules[1..], d');
      assert forall i :: |d'.flags| <= i < |r.flags| ==>
        exists j :: 0 <= j < |rules| && r.flags[i] == "disclaimer_added:" + rules[j].0 by {
        forall i | |d'.flags| <= i < |r.flags|
          ensures exists j :: 0 <= j < |rules| && r.flags[i] == "disclaimer_added:" + rules[j].0
        {
          var j :| 0 <= j < |rules[1..]| && r.flags[i] == "disclaimer_added:" + rules[1..][j].0;
          assert rules[1..][j] == rules[j + 1];
        }
      }
      assert d' != d ==> r.flags[..|d'.flags|] == d'.flags && r.flags[|d.flags|] == d'.flags[|d.flags|];
      assert r.text[..|d.text|] == d'.text[..|d.text|];
      r
  }

  /** No disclaimer is due: every trigger present has its disclaimer. */
  predicate Settled(rules: seq<(string, string)>, text: string) {
    forall j :: 0 <= j < |rules| ==> !Due(rules[j], text)
  }

  /** Disclaimers that cannot create an earlier trigger: each is non-empty,
      its first character cannot start or continue an earlier trigger, and it
      does not contain an earlier trigger. The shipped table has this shape. */
  predicate Independent(rules: seq<(string, string)>) {
    forall i, j :: 0 <= j < i < |rules| ==>
      |rules[i].1| > 0 && LowerChar(rules[i].1[0]) !in Lower(rules[j].0)
      && !ContainsCI(rules[i].1, rules[j].0)
  }

  /** Appending disclaimers that avoid a lowered pattern `p` keeps `p` absent. */
  lemma {:induction false} DisclaimersKeepAbsent(rules: seq<(string, string)>, d: Draft, p: string)
    requires forall i :: 0 <= i < |rules| ==>
      |rules[i].1| > 0 && LowerChar(rules[i].1[0]) !in p && !Contains(Lower(rules[i].1), p)
    requires !Contains(Lower(d.text), p)
    ensures !Contains(Lower(AddDisclaimers(rules, d).text), p)
    decreases |rules|
  {
    if |rules| > 0 {
      var d' := AddDisclaimer(rules[0], d);
      if Due(rules[0], d.text) {
        LowerAppend(d.text, rules[0].1);
        if Contains(Lower(d'.text), p) {
          ContainsSplit(Lower(d.text), Lower(rules[0].1), p);
        }
      }
      DisclaimersKeepAbsent(rules[1..], d', p);
    }
  }

  /** After the disclaimer stage no disclaimer is due any more. */
  lemma {:induction false} AddDisclaimersSettles(rules: seq<(string, string)>, d: Draft)
    requires Independent(rules)
    ensures Settled(rules, AddDisclaimers(rules, d).text)
    decreases |rules|
  {
    if |rules| > 0 {
      var d' := AddDisclaimer(rules[0], d);
      var r := AddDisclaimers(rules[1..], d');
      assert Independent(rules[1..]) by {
        forall i, j | 0 <= j < i < |rules[1..]|
          ensures |rules[1..][i].1| > 0 && LowerChar(rules[1..][i].1[0]) !in Lower(rules[1..][j].0)
                  && !ContainsCI(rules[1..][i].1, rules[1..][j].0)
        {
          assert rules[1..][i] == rules[i + 1] && rules[1..][j] == rules[j + 1];
        }
      }
      AddDisclaimersSettles(rules[1..], d');
      assert !Due(rules[0], r.text) by {
        if Contains(d'.text, rules[0].1) {
          assert StartsWith(r.text, d'.text);
          assert r.text == d'.text + r.text[|d'.text|..];
          ContainsAppend(d'.text, r.text[|d'.text|..], rules[0].1);
        } else {
          assert !ContainsCI(d.text, rules[0].0) by {
            if Due(rules[0], d.text) {
              assert d'.text == d.text + rules[0].1;
              assert Contains(rules[0].1, rules[0].1) by {
                assert StartsWith(rules[0].1, rules[0].1);
              }
              ContainsPrepend(d.text, rules[0].1, rules[0].1);
            }
          }
          forall i | 0 <= i < |rules[1..]|
            ensures |rules[1..][i].1| > 0 && LowerChar(rules[1..][i].1[0]) !in Lower(rules[0].0)
                    && !Contains(Lower(rules[1..][i].1), Lower(rules[0].0))
          {
            assert rules[1..][i] == rules[i + 1];
          }
          DisclaimersKeepAbsent(rules[1..], d', Lower(rules[0].0));
        }
      }
      forall j | 0 <= j < |rules|
        ensures !Due(rules[j], r.text)
      {
        if j > 0 {
          assert rules[j] == rules[1..][j - 1];
        }
      }
    }
  }

  /** Running the disclaimer stage on its own output adds nothing: no
      disclaimer is ever appended a second time. */
  lemma DisclaimersIdempotent(rules: seq<(string, string)>, d: Draft)
    requires Independent(rules)
    ensures var once := AddDisclaimers(rules, d); AddDisclaimers(rules, once) == once
  {
    AddDisclaimersSettles(rules, d);
  }

  /** The flags a disclaimer pass over `text` adds when appending never
      changes what is due: one per rule whose disclaimer is due on `text`
      itself, in table order. */
  function DueFlags(rules: seq<(string, string)>, text: string): (r: seq<string>)
    ensures |r| <= |rules|
    decreases |rules|
  {
    if |rules| == 0 then []
    else (if Due(rules[0], text) then ["disclaimer_added:" + rules[0].0] else []) + DueFlags(rules[1..], text)
  }

  /** `DueFlags` names a rule's trigger exactly when that rule is due. */
  lemma {:induction false} DueFlagsMembers(rules: seq<(string, string)>, text: string)
    ensures forall i :: 0 <= i < |DueFlags(rules, text)| ==>
      exists j :: 0 <= j < |rules| && Due(rules[j], text) && DueFlags(rules, text)[i] == "disclaimer_added:" + rules[j].0
    ensures forall j :: 0 <= j < |rules| && Due(rules[j], text) ==> "disclaimer_added:" + rules[j].0 in DueFlags(rules, text)
    decreases |rules|
  {
    if |rules| > 0 {
      DueFlagsMembers(rules[1..], text);
      var head := if Due(rules[0], text) then ["disclaimer_added:" + rules[0].0] else [];
      var rest := DueFlags(rules[1..], text);
      assert DueFlags(rules, text) == head + rest;
      forall i | 0 <= i < |DueFlags(rules, text)|
        ensures exists j :: 0 <= j < |rules| && Due(rules[j], text) && DueFlags(rules, text)[i] == "disclaimer_added:" + rules[j].0
      {
        if i >= |head| {
          assert (head + rest)[i] == rest[i - |head|];
          var j :| 0 <= j < |rules[1..]| && Due(rules[1..][j], text) && rest[i - |head|] == "disclaimer_added:" + rules[1..][j].0;
          assert rules[1..][j] == rules[j + 1];
        } else {
          assert (head + rest)[i] == "disclaimer_added:" + rules[0].0 && Due(rules[0], text);
        }
      }
      forall j | 0 <= j < |rules| && Due(rules[j], text)
        ensures "disclaimer_added:" + rules[j].0 in head + rest
      {
        if j > 0 {
          assert rules[j] == rules[1..][j - 1];
          var k :| 0 <= k < |rest| && rest[k] == "disclaimer_added:" + rules[j].0;
          assert (head + rest)[|head| + k] == rest[k];
        } else {
          assert (head + rest)[0] == head[0];
        }
      }
      assert forall i :: 0 <= i < |DueFlags(rules, text)| ==>
        exists j :: 0 <= j < |rules| && Due(rules[j], text) && DueFlags(rules, text)[i] == "disclaimer_added:" + rules[j].0;
    } else {
      assert DueFlags(rules, text) == [];
    }
  }

  lemma DueFlagsAgree(rules: seq<(string, string)>, a: string, b: string)
    requires forall j :: 0 <= j < |rules| ==> (Due(rules[j], a) <==> Due(rules[j], b))
    ensures DueFlags(rules, a) == DueFlags(rules, b)
    decreases |rules|
  {
    if |rules| > 0 {
      DueFlagsAgree(rules[1..], a, b);
    }
  }

  /** The triggers of a table are pairwise different. */
  predicate DistinctTriggers(rules: seq<(string, string)>) {
    forall i, j :: 0 <= i < j < |rules| ==> rules[i].0 != rules[j].0
  }

  /** A disclaimer flag names its trigger unambiguously. */
  lemma DisclaimerFlagNames(x: string, y: string)
    requires "disclaimer_added:" + x == "disclaimer_added:" + y
    ensures x == y
  {
    assert x == ("disclaimer_added:" + x)[17..];
    assert y == ("disclaimer_added:" + y)[17..];
  }

  lemma DisclaimerFlagsDiffer(x: string, y: string)
    requires x != y
    ensures "disclaimer_added:" + x != "disclaimer_added:" + y
  {
    if "disclaimer_added:" + x == "disclaimer_added:" + y {
      DisclaimerFlagNames(x, y);
    }
  }

  /** Each rule is flagged at most once: with different triggers, no
      disclaimer flag repeats. */
  lemma {:induction false} DueFlagsDistinct(rules: seq<(string, string)>, text: string)
    requires DistinctTriggers(rules)
    ensures forall i, k :: 0 <= i < k < |DueFlags(rules, text)| ==> DueFlags(rules, text)[i] != DueFlags(rules, text)[k]
    decreases |rules|
  {
    if |rules| > 0 {
      var head := if Due(rules[0], text) then ["disclaimer_added:" + rules[0].0] else [];
      var rest := DueFlags(rules[1..], text);
      assert DistinctTriggers(rules[1..]) by {
        forall i, j | 0 <= i < j < |rules[1..]|
          ensures rules[1..][i].0 != rules[1..][j].0
        {
          assert rules[1..][i] == rules[i + 1] && rules[1..][j] == rules[j + 1];
        }
      }
      DueFlagsDistinct(rules[1..], text);
      DueFlagsMembers(rules[1..], text);
      forall i | 0 <= i < |rest|
        ensures rest[i] != "disclaimer_added:" + rules[0].0
      {
        var j :| 0 <= j < |rules[1..]| && Due(rules[1..][j], text) && rest[i] == "disclaimer_added:" + rules[1..][j].0;
        assert rules[1..][j] == rules[j + 1];
        DisclaimerFlagsDiffer(rules[j + 1].0, rules[0].0);
      }
      assert DueFlags(rules, text) == head + rest;
      PrependFresh(head, rest);
    }
  }

  /** A disclaimer shape: a blank line, then a single line of text. */
  predicate Paragraph(s: string) {
    |s| >= 3 && s[0] == '\n' && s[1] == '\n' && '\n' !in s[2..]
  }

  /** A disclaimer table in which appending one disclaimer never changes
      whether another is due: every disclaimer is a paragraph, no trigger
      holds a line break, and no disclaimer contains another rule's trigger
      (in any case) or another rule's disclaimer. */
  predicate Quiet(rules: seq<(string, string)>) {
    && (forall i :: 0 <= i < |rules| ==> Paragraph(rules[i].1) && '\n' !in Lower(rules[i].0))
    && (forall i, j :: 0 <= i < |rules| && 0 <= j < |rules| && i != j ==>
          !ContainsCI(rules[i].1, rules[j].0) && !Contains(rules[i].1, rules[j].1))
  }

  lemma QuietTail(rules: seq<(string, string)>)
    requires |rules| > 0 && Quiet(rules)
    ensures Quiet(rules[1..])
  {
    assert forall i :: 0 <= i < |rules[1..]| ==> rules[1..][i] == rules[i + 1];
  }

  /** A paragraph cannot start in `a` and end in another paragraph `b`. */
  lemma NoStraddle(a: string, b: string, p: string)
    requires Paragraph(p) && Paragraph(b) && !Contains(b, p)
    requires Contains(a + b, p)
    ensures Contains(a, p)
  {
    ContainsIffOccurrence(a + b, p);
    var q :| OccursAt(a + b, p, q);
    if q + |p| <= |a| {
      assert a[q..q + |p|] == (a + b)[q..q + |p|];
      assert OccursAt(a, p, q);
      ContainsIffOccurrence(a, p);
    } else if q >= |a| {
      ContainsIffOccurrence(b, p);
      assert false;
    } else {
      var m := |a| - q;
      StraddleSeam(a, b, p, q);
      if m >= 2 {
        ParagraphLine(p, m);
      } else {
        ParagraphLine(p, 2);
      }
      assert false;
    }
  }

  /** Where an occurrence of `p` runs from `a` into a paragraph `b`, the part
      of `p` at the seam is the paragraph's opening blank line. */
  lemma StraddleSeam(a: string, b: string, p: string, q: int)
    requires Paragraph(b) && OccursAt(a + b, p, q) && q < |a| < q + |p|
    ensures p[|a| - q] == '\n'
    ensures |a| - q + 1 < |p| ==> p[|a| - q + 1] == '\n'
  {
    assert p[|a| - q] == (a + b)[q..q + |p|][|a| - q] == (a + b)[|a|];
    if |a| - q + 1 < |p| {
      assert p[|a| - q + 1] == (a + b)[q..q + |p|][|a| - q + 1] == (a + b)[|a| + 1];
    }
  }

  /** After its opening blank line a paragraph has no line break. */
  lemma ParagraphLine(p: string, m: int)
    requires Paragraph(p) && 2 <= m < |p|
    ensures p[m] != '\n'
  {
    assert p[m] == p[2..][m - 2];
  }

  /** Appending the disclaimer of one rule leaves whether another rule is due
      as it was. */
  lemma AppendKeepsDue(rule: (string, string), text: string, other: (string, string))
    requires Paragraph(rule.1) && Paragraph(other.1) && '\n' !in Lower(rule.0)
    requires !ContainsCI(other.1, rule.0) && !Contains(other.1, rule.1)
    ensures Due(rule, text + other.1) <==> Due(rule, text)
  {
    LowerAppend(text, other.1);
    assert Lower(other.1)[0] == '\n';
    if ContainsCI(text + other.1, rule.0) {
      ContainsSplit(Lower(text), Lower(other.1), Lower(rule.0));
    }
    if ContainsCI(text, rule.0) {
      ContainsAppend(Lower(text), Lower(other.1), Lower(rule.0));
    }
    if Contains(text + other.1, rule.1) {
      NoStraddle(text, other.1, rule.1);
    }
    if Contains(text, rule.1) {
      ContainsAppend(text, other.1, rule.1);
    }
  }

  /** In a quiet table the first rule's disclaimer changes nothing for the
      later rules. */
  lemma FirstKeepsLaterDue(rules: seq<(string, string)>, d: Draft)
    requires |rules| > 0 && Quiet(rules)
    ensures forall j :: 0 <= j < |rules[1..]| ==>
      (Due(rules[1..][j], AddDisclaimer(rules[0], d).text) <==> Due(rules[1..][j], d.text))
  {
    forall j | 0 <= j < |rules[1..]|
      ensures Due(rules[1..][j], AddDisclaimer(rules[0], d).text) <==> Due(rules[1..][j], d.text)
    {
      assert rules[1..][j] == rules[j + 1];
      if Due(rules[0], d.text) {
        assert Paragraph(rules[j + 1].1) && Paragraph(rules[0].1) && '\n' !in Lower(rules[j + 1].0);
        assert !ContainsCI(rules[0].1, rules[j + 1].0) && !Contains(rules[0].1, rules[j + 1].1);
        AppendKeepsDue(rules[j + 1], d.text, rules[0]);
      }
    }
  }

  /** One step of `AddDisclaimersFlags`: when the first rule leaves the later
      rules' status alone, the exact flags of the tail extend to the table. */
  lemma DisclaimerFlagsStep(rules: seq<(string, string)>, d: Draft)
    requires |rules| > 0
    requires forall j :: 0 <= j < |rules[1..]| ==>
      (Due(rules[1..][j], AddDisclaimer(rules[0], d).text) <==> Due(rules[1..][j], d.text))
    requires var d' := AddDisclaimer(rules[0], d);
      AddDisclaimers(rules[1..], d').flags == d'.flags + DueFlags(rules[1..], d'.text)
    ensures AddDisclaimers(rules, d).flags == d.flags + DueFlags(rules, d.text)
  {
    var d' := AddDisclaimer(rules[0], d);
    var head := if Due(rules[0], d.text) then ["disclaimer_added:" + rules[0].0] else [];
    var tail := DueFlags(rules[1..], d.text);
    var whole := AddDisclaimers(rules, d).flags;
    assert whole == AddDisclaimers(rules[1..], d').flags;
    assert whole == d'.flags + tail by {
      DueFlagsAgree(rules[1..], d'.text, d.text);
    }
    assert d'.flags == d.flags + head;
    assert DueFlags(rules, d.text) == head + tail;
    assert whole == (d.flags + head) + tail;
    AppendAssoc(d.flags, head, tail);
  }

  /** For a quiet table the disclaimer stage adds exactly one flag per rule
      whose disclaimer is due on the stage's input, in table order, and no
      other flag. */
  lemma {:induction false} AddDisclaimersFlags(rules: seq<(string, string)>, d: Draft)
    requires Quiet(rules)
    ensures AddDisclaimers(rules, d).flags == d.flags + DueFlags(rules, d.text)
    decreases |rules|
  {
    if |rules| > 0 {
      QuietTail(rules);
      AddDisclaimersFlags(rules[1..], AddDisclaimer(rules[0], d));
      FirstKeepsLaterDue(rules, d);
      DisclaimerFlagsStep(rules, d);
    }
  }

  /** A quiet table is independent, so the disclaimer stage settles it. */
  lemma QuietIsIndependent(rules: seq<(string, string)>)
    requires Quiet(rules)
    ensures Independent(rules)
  {
    forall i, j | 0 <= j < i < |rules|
      ensures |rules[i].1| > 0 && LowerChar(rules[i].1[0]) !in Lower(rules[j].0)
              && !ContainsCI(rules[i].1, rules[j].0)
    {
      assert Paragraph(rules[i].1) && '\n' !in Lower(rules[j].0);
    }
  }

  // The shipped disclaimer table

  /** A lower-case pattern with a letter that occurs in `s` in neither case
      does not occur in `s`, whatever the case. */
  lemma AbsentCI(s: string, t: string, k: nat)
    requires k < |t| && Lower(t) == t && t[k] !in s && UpperChar(t[k]) !in s
    ensures !ContainsCI(s, t)
  {
    LowerLacks(s, t[k]);
    CharAbsent(Lower(s), t, k);
  }

  /** No occurrence of a lower-case pattern can straddle a seam where one of
      the two characters is foreign to it. */
  lemma SplitAbsentCI(a: string, b: string, t: string)
    requires Lower(t) == t && !ContainsCI(a, t) && !ContainsCI(b, t)
    requires (|a| > 0 && LowerChar(a[|a| - 1]) !in t) || (|b| > 0 && LowerChar(b[0]) !in t)
    ensures !ContainsCI(a + b, t)
  {
    LowerAppend(a, b);
    if Contains(Lower(a + b), t) {
      ContainsSplit(Lower(a), Lower(b), t);
    }
  }

  /** Three pieces free of a lower-case pattern, where the second and third
      open with a character foreign to it, make a text free of it. */
  lemma AbsentAcrossOpenings(h: string, c: string, e: string, t: string)
    requires Lower(t) == t && !ContainsCI(h, t) && !ContainsCI(c, t) && !ContainsCI(e, t)
    requires |c| > 0 && LowerChar(c[0]) !in t && |e| > 0 && LowerChar(e[0]) !in t
    ensures !ContainsCI(h + c + e, t)
  {
    SplitAbsentCI(h, c, t);
    SplitAbsentCI(h + c, e, t);
  }

  lemma NoteParagraph(body: string)
    requires '\n' !in body
    ensures Paragraph(NoteLead + body)
  {
    assert (NoteLead + body)[2..] == NoteLead[2..] + body;
    assert NoteLead[2..] == "_Note: ";
  }

  lemma DefaultTriggersLower()
    ensures Lower("refund") == "refund" && '\n' !in Lower("refund")
    ensures Lower("warranty") == "warranty" && '\n' !in Lower("warranty")
    ensures Lower("price guarantee") == "price guarantee" && '\n' !in Lower("price guarantee")
  {
    LowerOfLowercase("refund");
    LowerOfLowercase("warranty");
    LowerOfLowercase("price guarantee");
  }

  // The characters each piece of the shipped disclaimers lacks.

  lemma NoteLeadLacks()
    ensures Avoids(NoteLead, "wWgGfFpPRuU")
  {
  }

  lemma RefundHeadLacks()
    ensures Avoids(RefundHead, "wWgGP\n")
  {
  }

  lemma RefundTailLacks()
    ensures Avoids(RefundTail, "wWgGPR\n")
  {
  }

  lemma WarrantyHeadLacks()
    ensures Avoids(WarrantyHead, "fFpPR\n")
  {
  }

  lemma WarrantyProductLacks()
    ensures Avoids(WarrantyProduct, "fFgGPRW\n")
  {
  }

  lemma WarrantyCheckLacks()
    ensures Avoids(WarrantyCheck, "fFgGPRW\n")
  {
  }

  lemma WarrantyTailLacks()
    ensures Avoids(WarrantyTail, "uUgGPRW\n")
  {
  }

  lemma PriceHeadLacks()
    ensures Avoids(PriceHead, "fFwWR\n")
  {
  }

  lemma PriceTailLacks()
    ensures Avoids(PriceTail, "fFwWRP\n")
  {
  }

  // The characters each whole disclaimer lacks.

  lemma RefundLacks(ch: char)
    requires ch in "wWgGP"
    ensures ch !in RefundDisclaimer
  {
    NoteLeadLacks();
    RefundHeadLacks();
    RefundTailLacks();
    AvoidedIn3(NoteLead, RefundHead, RefundTail, "wWgGfFpPRuU", "wWgGP\n", "wWgGPR\n", ch);
  }

  lemma PriceLacks(ch: char)
    requires ch in "fFwWR"
    ensures ch !in PriceDisclaimer
  {
    NoteLeadLacks();
    PriceHeadLacks();
    PriceTailLacks();
    AvoidedIn3(NoteLead, PriceHead, PriceTail, "wWgGfFpPRuU", "fFwWR\n", "fFwWRP\n", ch);
  }

  /** The warranty disclaimer without its last piece. */
  lemma WarrantyFrontLacks(ch: char)
    requires ch in "fFPR"
    ensures ch !in NoteLead + WarrantyHead + WarrantyProduct + WarrantyCheck
  {
    NoteLeadLacks();
    WarrantyHeadLacks();
    WarrantyProductLacks();
    WarrantyCheckLacks();
    AvoidedIn3(NoteLead, WarrantyHead, WarrantyProduct, "wWgGfFpPRuU", "fFpPR\n", "fFgGPRW\n", ch);
    assert ch !in WarrantyCheck;
    NotInAppend(NoteLead + WarrantyHead + WarrantyProduct, WarrantyCheck, ch);
  }

  lemma WarrantyLacks(ch: char)
    requires ch in "PR"
    ensures ch !in WarrantyDisclaimer
  {
    WarrantyFrontLacks(ch);
    WarrantyTailLacks();
    assert ch !in WarrantyTail;
    NotInAppend(NoteLead + WarrantyHead + WarrantyProduct + WarrantyCheck, WarrantyTail, ch);
  }

  // No disclaimer holds another rule's trigger.

  lemma RefundLacksWarranty()
    ensures !ContainsCI(RefundDisclaimer, "warranty")
  {
    RefundLacks('w');
    RefundLacks('W');
    LowerOfLowercase("warranty");
    AbsentCI(RefundDisclaimer, "warranty", 0);
  }

  lemma RefundLacksPrice()
    ensures !ContainsCI(RefundDisclaimer, "price guarantee")
  {
    RefundLacks('g');
    RefundLacks('G');
    LowerOfLowercase("price guarantee");
    AbsentCI(RefundDisclaimer, "price guarantee", 6);
  }

  lemma PriceLacksRefund()
    ensures !ContainsCI(PriceDisclaimer, "refund")
  {
    PriceLacks('f');
    PriceLacks('F');
    LowerOfLowercase("refund");
    AbsentCI(PriceDisclaimer, "refund", 2);
  }

  lemma PriceLacksWarranty()
    ensures !ContainsCI(PriceDisclaimer, "warranty")
  {
    PriceLacks('w');
    PriceLacks('W');
    LowerOfLowercase("warranty");
    AbsentCI(PriceDisclaimer, "warranty", 0);
  }

  /* The warranty disclaimer holds every letter of "refund" and of "price
     guarantee", so it is cut into pieces at seams no occurrence can cross,
     and each piece lacks one of the letters. */

  lemma WarrantyFrontLacksRefund()
    ensures !ContainsCI(NoteLead + WarrantyHead + WarrantyProduct + WarrantyCheck, "refund")
  {
    WarrantyFrontLacks('f');
    WarrantyFrontLacks('F');
    LowerOfLowercase("refund");
    AbsentCI(NoteLead + WarrantyHead + WarrantyProduct + WarrantyCheck, "refund", 2);
  }

  lemma WarrantyTailLacksRefund()
    ensures !ContainsCI(WarrantyTail, "refund")
  {
    WarrantyTailLacks();
    LowerOfLowercase("refund");
    AbsentCI(WarrantyTail, "refund", 3);
  }

  lemma WarrantyFrontEndsForeign()
    ensures |NoteLead + WarrantyHead + WarrantyProduct + WarrantyCheck| > 0
    ensures var front := NoteLead + WarrantyHead + WarrantyProduct + WarrantyCheck;
      LowerChar(front[|front| - 1]) !in "refund"
  {
    var front := NoteLead + WarrantyHead + WarrantyProduct + WarrantyCheck;
    assert front[|front| - 1] == WarrantyCheck[|WarrantyCheck| - 1] == ' ';
  }

  lemma WarrantyLacksRefund()
    ensures !ContainsCI(WarrantyDisclaimer, "refund")
  {
    LowerOfLowercase("refund");
    WarrantyFrontLacksRefund();
    WarrantyTailLacksRefund();
    WarrantyFrontEndsForeign();
    SplitAbsentCI(NoteLead + WarrantyHead + WarrantyProduct + WarrantyCheck, WarrantyTail, "refund");
  }

  lemma NoteHeadLacksPrice()
    ensures !ContainsCI(NoteLead + WarrantyHead, "price guarantee")
  {
    NoteLeadLacks();
    WarrantyHeadLacks();
    NotInAppend(NoteLead, WarrantyHead, 'p');
    NotInAppend(NoteLead, WarrantyHead, 'P');
    LowerOfLowercase("price guarantee");
    AbsentCI(NoteLead + WarrantyHead, "price guarantee", 0);
  }

  lemma ProductLacksPrice()
    ensures !ContainsCI(WarrantyProduct, "price guarantee")
  {
    WarrantyProductLacks();
    LowerOfLowercase("price guarantee");
    AbsentCI(WarrantyProduct, "price guarantee", 6);
  }

  lemma NoteHeadEndsForeign()
    ensures |NoteLead + WarrantyHead| > 0
    ensures LowerChar((NoteLead + WarrantyHead)[|NoteLead + WarrantyHead| - 1]) !in "price guarantee"
  {
    assert (NoteLead + WarrantyHead)[|NoteLead + WarrantyHead| - 1] == WarrantyHead[|WarrantyHead| - 1] == 'y';
  }

  lemma WarrantyHeadLacksPrice()
    ensures !ContainsCI(NoteLead + WarrantyHead + WarrantyProduct, "price guarantee")
  {
    PriceGuaranteeLower();
    NoteHeadLacksPrice();
    ProductLacksPrice();
    NoteHeadEndsForeign();
    SplitAbsentCI(NoteLead + WarrantyHead, WarrantyProduct, "price guarantee");
  }

  lemma CheckLacksPrice()
    ensures !ContainsCI(WarrantyCheck, "price guarantee")
  {
    WarrantyCheckLacks();
    LowerOfLowercase("price guarantee");
    AbsentCI(WarrantyCheck, "price guarantee", 6);
  }

  lemma TailLacksPrice()
    ensures !ContainsCI(WarrantyTail, "price guarantee")
  {
    WarrantyTailLacks();
    LowerOfLowercase("price guarantee");
    AbsentCI(WarrantyTail, "price guarantee", 6);
  }

  lemma PriceGuaranteeLower()
    ensures Lower("price guarantee") == "price guarantee"
    ensures LowerChar('.') !in "price guarantee" && LowerChar('f') !in "price guarantee"
  {
    LowerOfLowercase("price guarantee");
  }

  lemma WarrantyLacksPrice()
    ensures !ContainsCI(WarrantyDisclaimer, "price guarantee")
  {
    PriceGuaranteeLower();
    WarrantyHeadLacksPrice();
    CheckLacksPrice();
    TailLacksPrice();
    assert WarrantyCheck[0] == '.' && WarrantyTail[0] == 'f';
    AbsentAcrossOpenings(NoteLead + WarrantyHead + WarrantyProduct, WarrantyCheck, WarrantyTail, "price guarantee");
  }

  // No shipped disclaimer contains another: each one's opening capital is
  // missing from the other two.

  lemma RefundCapital()
    ensures |RefundDisclaimer| > 9 && RefundDisclaimer[9] == 'R'
  {
    assert |NoteLead| == 9 && RefundHead[0] == 'R';
  }

  lemma WarrantyCapital()
    ensures |WarrantyDisclaimer| > 9 && WarrantyDisclaimer[9] == 'W'
  {
    assert |NoteLead| == 9 && WarrantyHead[0] == 'W';
  }

  lemma PriceCapital()
    ensures |PriceDisclaimer| > 9 && PriceDisclaimer[9] == 'P'
  {
    assert |NoteLead| == 9 && PriceHead[0] == 'P';
  }

  lemma RefundNotWarranty()
    ensures !Contains(RefundDisclaimer, WarrantyDisclaimer)
  {
    WarrantyCapital();
    RefundLacks('W');
    CharAbsent(RefundDisclaimer, WarrantyDisclaimer, 9);
  }

  lemma RefundNotPrice()
    ensures !Contains(RefundDisclaimer, PriceDisclaimer)
  {
    PriceCapital();
    RefundLacks('P');
    CharAbsent(RefundDisclaimer, PriceDisclaimer, 9);
  }

  lemma WarrantyNotRefund()
    ensures !Contains(WarrantyDisclaimer, RefundDisclaimer)
  {
    RefundCapital();
    WarrantyLacks('R');
    CharAbsent(WarrantyDisclaimer, RefundDisclaimer, 9);
  }

  lemma WarrantyNotPrice()
    ensures !Contains(WarrantyDisclaimer, PriceDisclaimer)
  {
    PriceCapital();
    WarrantyLacks('P');
    CharAbsent(WarrantyDisclaimer, PriceDisclaimer, 9);
  }

  lemma PriceNotRefund()
    ensures !Contains(PriceDisclaimer, RefundDisclaimer)
  {
    RefundCapital();
    PriceLacks('R');
    CharAbsent(PriceDisclaimer, RefundDisclaimer, 9);
  }

  lemma PriceNotWarranty()
    ensures !Contains(PriceDisclaimer, WarrantyDisclaimer)
  {
    WarrantyCapital();
    PriceLacks('W');
    CharAbsent(PriceDisclaimer, WarrantyDisclaimer, 9);
  }

  lemma NotIn3(a: string, b: string, c: string, ch: char)
    requires ch !in a && ch !in b && ch !in c
    ensures ch !in a + b + c
  {
    NotInAppend(a, b, ch);
    NotInAppend(a + b, c, ch);
  }

  // Every shipped disclaimer is a paragraph.

  lemma RefundParagraph()
    ensures Paragraph(RefundDisclaimer)
  {
    RefundHeadLacks();
    RefundTailLacks();
    assert '\n' !in RefundHead && '\n' !in RefundTail;
    NotInAppend(RefundHead, RefundTail, '\n');
    NoteParagraph(RefundHead + RefundTail);
    AppendAssoc(NoteLead, RefundHead, RefundTail);
  }

  lemma WarrantyParagraph()
    ensures Paragraph(WarrantyDisclaimer)
  {
    WarrantyHeadLacks();
    WarrantyProductLacks();
    WarrantyCheckLacks();
    WarrantyTailLacks();
    var body := WarrantyHead + WarrantyProduct + WarrantyCheck + WarrantyTail;
    assert '\n' !in WarrantyHead && '\n' !in WarrantyProduct;
    assert '\n' !in WarrantyCheck && '\n' !in WarrantyTail;
    NotIn3(WarrantyHead, WarrantyProduct, WarrantyCheck, '\n');
    NotInAppend(WarrantyHead + WarrantyProduct + WarrantyCheck, WarrantyTail, '\n');
    NoteParagraph(body);
    assert WarrantyDisclaimer == NoteLead + body;
  }

  lemma PriceParagraph()
    ensures Paragraph(PriceDisclaimer)
  {
    PriceHeadLacks();
    PriceTailLacks();
    assert '\n' !in PriceHead && '\n' !in PriceTail;
    NotInAppend(PriceHead, PriceTail, '\n');
    NoteParagraph(PriceHead + PriceTail);
    AppendAssoc(NoteLead, PriceHead, PriceTail);
  }

  lemma DefaultDisclaimersShaped()
    ensures forall i :: 0 <= i < |DefaultDisclaimers| ==>
      Paragraph(DefaultDisclaimers[i].1) && '\n' !in Lower(DefaultDisclaimers[i].0)
  {
    RefundParagraph();
    WarrantyParagraph();
    PriceParagraph();
    DefaultTriggersLower();
  }

  lemma DefaultDisclaimersSeparate()
    ensures forall i, j :: 0 <= i < |DefaultDisclaimers| && 0 <= j < |DefaultDisclaimers| && i != j ==>
      !ContainsCI(DefaultDisclaimers[i].1, DefaultDisclaimers[j].0)
      && !Contains(DefaultDisclaimers[i].1, DefaultDisclaimers[j].1)
  {
    var rs := DefaultDisclaimers;
    forall i, j | 0 <= i < |rs| && 0 <= j < |rs| && i != j
      ensures !ContainsCI(rs[i].1, rs[j].0) && !Contains(rs[i].1, rs[j].1)
    {
      if i == 0 && j == 1 {
        RefundLacksWarranty();
        RefundNotWarranty();
      } else if i == 0 && j == 2 {
        RefundLacksPrice();
        RefundNotPrice();
      } else if i == 1 && j == 0 {
        WarrantyLacksRefund();
        WarrantyNotRefund();
      } else if i == 1 && j == 2 {
        WarrantyLacksPrice();
        WarrantyNotPrice();
      } else if i == 2 && j == 0 {
        PriceLacksRefund();
        PriceNotRefund();
      } else {
        assert i == 2 && j == 1;
        PriceLacksWarranty();
        PriceNotWarranty();
      }
    }
  }

  /** The shipped disclaimer table is quiet: appending one of its disclaimers
      never changes whether another is due. */
  lemma DefaultDisclaimersQuiet()
    ensures Quiet(DefaultOutputRules.disclaimers)
  {
    assert DefaultOutputRules.disclaimers == DefaultDisclaimers;
    DefaultDisclaimersShaped();
    DefaultDisclaimersSeparate();
  }

  /** Hence the shipped table is also independent. */
  lemma DefaultDisclaimersIndependent()
    ensures Independent(DefaultOutputRules.disclaimers)
  {
    DefaultDisclaimersQuiet();
    QuietIsIndependent(DefaultOutputRules.disclaimers);
  }

  /** With the shipped table the disclaimer stage flags exactly the triggers
      whose disclaimer is due on its input, in table order. */
  lemma DefaultDisclaimerFlags(d: Draft)
    ensures AddDisclaimers(DefaultOutputRules.disclaimers, d).flags
            == d.flags + DueFlags(DefaultOutputRules.disclaimers, d.text)
    ensures var due := DueFlags(DefaultOutputRules.disclaimers, d.text);
      forall i, k :: 0 <= i < k < |due| ==> due[i] != due[k]
  {
    DefaultDisclaimersQuiet();
    AddDisclaimersFlags(DefaultOutputRules.disclaimers, d);
    DefaultTriggersDistinct();
    DueFlagsDistinct(DefaultOutputRules.disclaimers, d.text);
  }

  lemma DefaultTriggersDistinct()
    ensures DistinctTriggers(DefaultOutputRules.disclaimers)
  {
    assert DefaultOutputRules.disclaimers == DefaultDisclaimers;
    assert |DefaultDisclaimers[0].0| == 6 && |DefaultDisclaimers[1].0| == 8 && |DefaultDisclaimers[2].0| == 15;
  }

  /** With the shipped table a second disclaimer pass adds nothing. */
  lemma DefaultDisclaimersIdempotent(d: Draft)
    ensures var once := AddDisclaimers(DefaultOutputRules.disclaimers, d);
      AddDisclaimers(DefaultOutputRules.disclaimers, once) == once
  {
    DefaultDisclaimersIndependent();
    DisclaimersIdempotent(DefaultOutputRules.disclaimers, d);
  }

  // ---------------------------------------------------------------------------
  // Stage 4: truncation
  // ---------------------------------------------------------------------------

  /** Stage 4: a text longer than `maxLength` keeps its first `maxLength - 100`
      characters (Python slice semantics) followed by the notice. */
  function Truncate(maxLength: int, d: Draft): (r: Draft)
    ensures r == d <==> |d.text| <= maxLength
    ensures |d.text| > maxLength ==>
      r.flags == d.flags + ["truncated"]
      && StartsWith(r.text, PyTake(d.text, maxLength - 100))
      && |r.text| >= |TruncationNotice|
      && r.text[|r.text| - |TruncationNotice|..] == TruncationNotice
    ensures |d.text| > maxLength && maxLength >= 100 ==>
      |r.text| == maxLength - 100 + |TruncationNotice| && |r.text| <= maxLength
  {
    if |d.text| > maxLength then
      var head := PyTake(d.text, maxLength - 100);
      assert (head + TruncationNotice)[..|head|] == head;
      Draft(head + TruncationNotice, d.flags + ["truncated"])
    else d
  }

  /** Below 100 characters the slice bound is negative and counts from the
      end, so the "truncated" text can be longer than the limit. */
  lemma SmallLimitOverflows()
    ensures var d := Draft(seq(200, i => 'a'), []);
      |Truncate(10, d).text| == 144 && |Truncate(10, d).text| > 10
  {
  }

  // ---------------------------------------------------------------------------
  // The whole output check
  // ---------------------------------------------------------------------------

  /** The four stages in order, starting from the output and no flags. */
  function Stages(re: Regex, rules: OutputRules, output: string): Draft {
    var a := RemoveTerms(rules.blockedTerms, Draft(output, []));
    var b := RedactPii(re, rules.piiPatterns, a);
    var c := AddDisclaimers(rules.disclaimers, b);
    Truncate(rules.maxLength, c)
  }

  /** An output that no stage would touch. */
  predicate Clean(re: Regex, rules: OutputRules, output: string) {
    && (forall j :: 0 <= j < |rules.blockedTerms| ==> !ContainsCI(output, rules.blockedTerms[j]))
    && (forall j :: 0 <= j < |rules.piiPatterns| ==> !re.search(rules.piiPatterns[j].0, output))
    && Settled(rules.disclaimers, output)
    && |output| <= rules.maxLength
  }

  /** `OutputGuardrail.check`. It never blocks: it returns MODIFY with the
      rewritten text when any stage fired, and ALLOW with no rewrite exactly
      when the output is clean. */
  function CheckOutput(re: Regex, rules: OutputRules, output: string): (r: GuardrailResult)
    ensures r.action == Allow || r.action == Modify
    ensures r.original == output
    ensures r.action == Modify <==> r.modified.Some?
    ensures r.action == Allow <==> Clean(re, rules, output)
    ensures r.action == Allow ==> r == NewVerdict(Allow, output)
    ensures r.action == Modify ==> r.reason == OutputReason && |r.flags| > 0
    // with a limit of at least 100 the delivered text never exceeds it
    ensures r.action == Modify && rules.maxLength >= 100 ==> |r.modified.value| <= rules.maxLength
  {
    var a := RemoveTerms(rules.blockedTerms, Draft(output, []));
    var b := RedactPii(re, rules.piiPatterns, a);
    var c := AddDisclaimers(rules.disclaimers, b);
    var d := Truncate(rules.maxLength, c);
    if |d.flags| > 0 then
      GuardrailResult(Modify, output, Some(d.text), OutputReason, d.flags)
    else
      assert a == Draft(output, []) && b == a && c == b && d == c;
      GuardrailResult(Allow, output, None, "", [])
  }

  /** The flags of the verdict, stage by stage: one per blocked term that
      occurs in the output, in list order; then the PII stage's
      `pii_redacted` flags, one per matching pattern when no substitution
      disturbs a later pattern; then one per disclaimer due on the redacted
      text, in table order; then `truncated` when the text with disclaimers
      exceeds the limit. The rewrite is the text of the last stage. */
  lemma CheckOutputFlags(re: Regex, rules: OutputRules, output: string)
    requires TermsApart(rules.blockedTerms)
    requires forall j :: 0 <= j < |rules.blockedTerms| ==> SafeTerm(rules.blockedTerms[j])
    requires Quiet(rules.disclaimers)
    ensures var r := CheckOutput(re, rules, output);
      var a := RemoveTerms(rules.blockedTerms, Draft(output, []));
      var b := RedactPii(re, rules.piiPatterns, a);
      var c := AddDisclaimers(rules.disclaimers, b);
      var pii := b.flags[|a.flags|..];
      && r.flags == TermFlags(rules.blockedTerms, output) + pii + DueFlags(rules.disclaimers, b.text)
                    + (if |c.text| > rules.maxLength then ["truncated"] else [])
      && |pii| <= |rules.piiPatterns|
      && (forall i :: 0 <= i < |pii| ==> pii[i] == "pii_redacted")
      && (Unentangled(re, rules.piiPatterns) ==> |pii| == Fired(re, rules.piiPatterns, a.text))
      && (r.action == Modify ==> r.modified == Some(Truncate(rules.maxLength, c).text))
  {
    var a := RemoveTerms(rules.blockedTerms, Draft(output, []));
    var b := RedactPii(re, rules.piiPatterns, a);
    var c := AddDisclaimers(rules.disclaimers, b);
    var pii := b.flags[|a.flags|..];
    VerdictIsStages(re, rules, output);
    LateStageFlags(rules, b);
    RemoveTermsFlags(rules.blockedTerms, Draft(output, []));
    PiiStageFlags(re, rules.piiPatterns, a);
  }

  /** The PII stage appends one `pii_redacted` flag per pattern at most, and
      exactly one per pattern fired when no substitution disturbs another. */
  lemma PiiStageFlags(re: Regex, patterns: seq<(string, string)>, a: Draft)
    ensures var b := RedactPii(re, patterns, a);
      var pii := b.flags[|a.flags|..];
      && b.flags == a.flags + pii
      && |pii| <= |patterns|
      && (forall i :: 0 <= i < |pii| ==> pii[i] == "pii_redacted")
      && (Unentangled(re, patterns) ==> |pii| == Fired(re, patterns, a.text))
  {
    var b := RedactPii(re, patterns, a);
    assert b.flags == a.flags + b.flags[|a.flags|..];
    if Unentangled(re, patterns) {
      RedactPiiCount(re, patterns, a);
    }
  }

  /** The verdict carries the flags and the text of the last stage. */
  lemma VerdictIsStages(re: Regex, rules: OutputRules, output: string)
    ensures var r := CheckOutput(re, rules, output);
      && r.flags == Stages(re, rules, output).flags
      && (r.action == Modify ==> r.modified == Some(Stages(re, rules, output).text))
  {
  }

  /** The disclaimer and truncation stages append their flags to the flags
      they receive. */
  lemma LateStageFlags(rules: OutputRules, b: Draft)
    requires Quiet(rules.disclaimers)
    ensures var c := AddDisclaimers(rules.disclaimers, b);
      Truncate(rules.maxLength, c).flags
        == b.flags + DueFlags(rules.disclaimers, b.text) + (if |c.text| > rules.maxLength then ["truncated"] else [])
  {
    AddDisclaimersFlags(rules.disclaimers, b);
  }

  /** With the shipped rules the flags are exact with no further hypothesis
      on the blocked terms or the disclaimers. */
  lemma DefaultCheckOutputFlags(re: Regex, output: string)
    ensures var rules := DefaultOutputRules;
      var r := CheckOutput(re, rules, output);
      var a := RemoveTerms(rules.blockedTerms, Draft(output, []));
      var b := RedactPii(re, rules.piiPatterns, a);
      var c := AddDisclaimers(rules.disclaimers, b);
      var pii := b.flags[|a.flags|..];
      && r.flags == TermFlags(rules.blockedTerms, output) + pii + DueFlags(rules.disclaimers, b.text)
                    + (if |c.text| > rules.maxLength then ["truncated"] else [])
      && |pii| <= 3
      && (forall i :: 0 <= i < |pii| ==> pii[i] == "pii_redacted")
      && (Unentangled(re, rules.piiPatterns) ==> |pii| == Fired(re, rules.piiPatterns, a.text))
  {
    DefaultTermsApart();
    DefaultTermsAreSafe();
    DefaultDisclaimersQuiet();
    CheckOutputFlags(re, DefaultOutputRules, output);
  }

  /** Re-checking the output's own rewrite adds no disclaimer a second time:
      when the first pass did not truncate and the blocked-term and PII stages
      of the second pass leave the text alone, the second pass allows it. */
  lemma RecheckAddsNoDisclaimer(re: Regex, rules: OutputRules, output: string)
    requires Independent(rules.disclaimers)
    requires var r := CheckOutput(re, rules, output); r.action == Modify
    requires var c := AddDisclaimers(rules.disclaimers,
                        RedactPii(re, rules.piiPatterns, RemoveTerms(rules.blockedTerms, Draft(output, []))));
             |c.text| <= rules.maxLength
    requires var y := CheckOutput(re, rules, output).modified.value;
             (forall j :: 0 <= j < |rules.blockedTerms| ==> !ContainsCI(y, rules.blockedTerms[j]))
             && (forall j :: 0 <= j < |rules.piiPatterns| ==> !re.search(rules.piiPatterns[j].0, y))
    ensures CheckOutput(re, rules, CheckOutput(re, rules, output).modified.value).action == Allow
  {
    var b := RedactPii(re, rules.piiPatterns, RemoveTerms(rules.blockedTerms, Draft(output, [])));
    AddDisclaimersSettles(rules.disclaimers, b);
  }

  /** With the shipped rules, re-checking a rewrite that was not truncated
      adds no disclaimer a second time: when the blocked-term and PII stages
      leave the rewrite alone, it is allowed. */
  lemma DefaultRecheckAddsNoDisclaimer(re: Regex, output: string)
    requires CheckOutput(re, DefaultOutputRules, output).action == Modify
    requires var rules := DefaultOutputRules;
      var c := AddDisclaimers(rules.disclaimers,
                 RedactPii(re, rules.piiPatterns, RemoveTerms(rules.blockedTerms, Draft(output, []))));
      |c.text| <= rules.maxLength
    requires var rules := DefaultOutputRules;
      var y := CheckOutput(re, rules, output).modified.value;
      (forall j :: 0 <= j < |rules.blockedTerms| ==> !ContainsCI(y, rules.blockedTerms[j]))
      && (forall j :: 0 <= j < |rules.piiPatterns| ==> !re.search(rules.piiPatterns[j].0, y))
    ensures CheckOutput(re, DefaultOutputRules, CheckOutput(re, DefaultOutputRules, output).modified.value).action == Allow
  {
    DefaultDisclaimersIndependent();
    RecheckAddsNoDisclaimer(re, DefaultOutputRules, output);
  }
}
