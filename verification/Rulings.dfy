/** What a ruling of the mediator can be, whatever the call: the facts every theorem about runs starts from. */
module Rulings {
  import opened Domain
  import opened JsonValues
  import Mandates
  import opened Authorization
  import opened Policies
  import opened Kernel
  import Registry
  import Grants
  import Escalations
  import Evidence

  function Canon(c: Call): Fields
    requires Authentic(c)
  {
    c.snapshot.value
  }

  function Who(c: Call): string
    requires Authentic(c)
  {
    c.authn.principal.value
  }

  /** Some registered capability allows it now; skip says whether an Owner's permit stands in for escalating. */
  ghost predicate AllowedLive(k: Config, c: Call, ask: Ask, skip: bool) {
    exists cap :: cap in c.caps && CheckCapability(Some(cap), ask, skip, SituationOf(k, c)).decision == Allow
  }

  /** The live conditions of every PERMIT. */
  ghost predicate LiveChecks(k: Config, s: State, c: Call, skip: bool) {
    && Authentic(c) && Parse(Canon(c)).Asked? && !PolicyBlocks(k, s.policy) && c.provenance.Matches?
    && AllowedLive(k, c, AskOf(Who(c), Parse(Canon(c))), skip)
  }

  ghost predicate LawfulEvaluatePermit(k: Config, s: State, c: Call, r: Ruling) {
    c.op == Evaluate && r.escalation.None? && LiveChecks(k, s, c, false)
  }

  ghost predicate LawfulRedemption(k: Config, s: State, c: Call, r: Ruling, id: string) {
    && c.op == Reenter && r.verdict == Permit && r.escalation == Some(id)
    && id in s.escalations && id in s.grants.cells && Authentic(c) && Parse(Canon(c)).Asked?
    && k.str(Get(Canon(c), "escalation_id")) == id
    && RecordRefusal(s.escalations[id], Who(c)).None?
    && LiveChecks(k, s, c, Skips(Some(s.grants.cells[id].grant), Parse(Canon(c))))
    && exists cap, identity ::
         Grants.RefuseRedeem(s.grants, id, TermsOf(k, s.policy, Canon(c), Who(c), Parse(Canon(c)), cap, identity), c.now).None?
  }

  predicate LawfulFiling(k: Config, s: State, c: Call, r: Ruling, record: Escalations.Escalation, grant: Grants.Grant) {
    && c.op == Evaluate && r.verdict == Escalate && r.escalation == Some(c.newId) && c.newId !in s.escalations
    && Authentic(c)
    && record == Escalations.Filed(c.newId, k.TextOr(Get(Canon(c), "request_id")), Who(c), k.PayloadHash(Canon(c)), grant.reason)
    && grant.escalation == c.newId && grant.ownerDecision == "" && !grant.consumed
    && grant.terms.principal == Who(c) && grant.terms.payload == k.PayloadHash(Canon(c))
    && grant.terms.request == k.TextOr(Get(Canon(c), "request_id"))
  }

  predicate LawfulDecision(k: Config, s: State, c: Call, r: Ruling, id: string, decision: string, owner: string) {
    && c.op == Decide && r.verdict == Deny && r.escalation == Some(id) && r.ownerDecision == Some(decision)
    && Authentic(c) && Who(c) == OWNER && owner == OWNER && Holds(c.caps, OWNER, RDec, c.now)
    && Get(Canon(c), "owner_decision") == JStr(decision) && k.str(Get(Canon(c), "escalation_id")) == id
    && Escalations.RefuseDecide(s.escalations, id, decision).None?
  }

  /** c is the Owner's update, under an active R-DEC capability, to this policy, and the policy serves. */
  predicate OwnerInstalls(k: Config, c: Call, policy: Policy) {
    && c.op == UpdatePolicy && Authentic(c) && Who(c) == OWNER && Holds(c.caps, OWNER, RDec, c.now)
    && Get(Canon(c), "policy_version").NonEmptyString() && Get(Canon(c), "policy_body").JObj?
    && policy == FromBody(k.sha, Get(Canon(c), "policy_version").s, Get(Canon(c), "policy_body").fields)
    && !policy.BlocksPermit(k.sha)
  }

  /** An evidence step is taken in the caller's own name; no call binds a digest. */
  predicate ActsAs(c: Call, op: Evidence.Op) {
    Authentic(c) &&
    match op
    case Create(_, producer, _) => c.op == CreateEvidence && producer == Who(c)
    case Verify(_, principal, _, _) => c.op == VerifyEvidence && principal == Who(c)
    case Authorize(_, principal, _, _) => c.op == AuthorizeEvidence && principal == Who(c)
    case Bind(_, _, _) => false
  }

  ghost predicate LawfulEffect(k: Config, s: State, c: Call, r: Ruling) {
    match r.effect
    case Nothing => r.verdict == Permit ==> LawfulEvaluatePermit(k, s, c, r)
    case Redeems(id) => LawfulRedemption(k, s, c, r, id)
    case Escalates(record, grant) => LawfulFiling(k, s, c, r, record, grant)
    case Decides(id, decision, owner) => LawfulDecision(k, s, c, r, id, decision, owner)
    case Installs(policy) => r.verdict == Deny && r.escalation.None? && OwnerInstalls(k, c, policy)
    case Advances(op) => r.verdict == Deny && r.escalation.None? && ActsAs(c, op)
  }

  /** The ruling grants exactly when it permits, describes the caller and the request, and names only escalations
      that exist or are being filed. */
  predicate LawfulRecord(s: State, c: Call, r: Ruling) {
    && (r.grant.Some? <==> r.verdict == Permit)
    && (r.escalation.Some? ==> Authentic(c) && (r.escalation.value in s.escalations || r.effect.Escalates?))
    && (Authentic(c) ==> r.bound == Some(Who(c)) && r.canon == Canon(c))
    && (!Authentic(c) ==> r.verdict == Deny && r.effect == Nothing)
    && (r.grant.Some? ==> Authentic(c) && r.grant.value == NoteOf(Canon(c), Who(c)))
  }

  /** c is a re-entry that carries this escalation id. */
  predicate Presents(k: Config, c: Call, id: string) {
    Authentic(c) && c.op == Reenter && Get(Canon(c), "escalation_id").Truthy() && k.str(Get(Canon(c), "escalation_id")) == id
  }

  /** A ruling that names an escalation files it, decides it, or answers a re-entry that carries its id. */
  predicate LawfulName(k: Config, c: Call, r: Ruling) {
    r.escalation.Some? ==> r.effect.Escalates? || r.effect.Decides? || Presents(k, c, r.escalation.value)
  }

  ghost predicate Lawful(k: Config, s: State, c: Call, r: Ruling) {
    LawfulEffect(k, s, c, r) && LawfulRecord(s, c, r) && LawfulName(k, c, r)
  }

  // ---------------------------------------------------------------- evaluate

  lemma CandidatesAreRegistered(caps: seq<Capability>, who: string, now: int, cap: Capability)
    requires Some(cap) in Candidates(caps, who, now)
    ensures cap in caps
  {
    Registry.LookupsComeFromTheRegistry(caps, who, now, cap);
  }

  lemma AllowNeedsCapability(k: Config, c: Call, ask: Ask, cap: Option<Capability>, skip: bool)
    requires CheckCapability(cap, ask, skip, SituationOf(k, c)).decision == Allow
    requires cap.Some? ==> cap.value in c.caps
    ensures AllowedLive(k, c, ask, skip)
  {
    DispositionExactlyWhen(cap, ask, skip, SituationOf(k, c));
    assert CheckCapability(Some(cap.value), ask, skip, SituationOf(k, c)).decision == Allow;
  }

  lemma EvaluateCapabilityRegistered(k: Config, c: Call, who: string, p: Parsed)
    requires p.Asked?
    ensures var cap := EvaluateCapability(k, c, who, p); cap.Some? ==> cap.value in c.caps
  {
    var cap := EvaluateCapability(k, c, who, p);
    if cap.Some? {
      CandidatesAreRegistered(c.caps, who, c.now, cap.value);
    }
  }

  lemma FilingLawful(k: Config, s: State, c: Call, p: Parsed, rules: seq<string>, reason: Grants.ReasonClass,
                     cap: Option<Capability>, frame: Option<Check>, prov: Provenance)
    requires Authentic(c) && c.op == Evaluate && p.Asked?
    ensures var r := EscalateNew(k, s, c, Canon(c), Who(c), p, rules, reason, cap, frame, prov);
            r.Some? ==> Lawful(k, s, c, r.value)
  {
  }

  lemma EvaluateByLawful(k: Config, s: State, c: Call, rule: string, p: Parsed, cap: Option<Capability>, check: Check)
    requires Authentic(c) && c.op == Evaluate && p.Asked? && p == Parse(Canon(c)) && !PolicyBlocks(k, s.policy)
    requires check.decision == Allow ==> AllowedLive(k, c, AskOf(Who(c), p), false)
    ensures var r := EvaluateBy(k, s, c, Canon(c), Who(c), rule, p, cap, check);
            r.Some? ==> Lawful(k, s, c, r.value)
  {
    var rules := [rule] + check.rules;
    match check.decision
    case Refuse =>
    case OwnerMandatory => FilingLawful(k, s, c, p, rules, ReasonOf(check), cap, Some(check), c.provenance);
    case Allow => EvaluateAllowedLawful(k, s, c, rule, p, cap, check);
  }

  lemma EvaluateAllowedLawful(k: Config, s: State, c: Call, rule: string, p: Parsed, cap: Option<Capability>, check: Check)
    requires Authentic(c) && c.op == Evaluate && p.Asked? && p == Parse(Canon(c)) && !PolicyBlocks(k, s.policy)
    requires check.decision == Allow && AllowedLive(k, c, AskOf(Who(c), p), false)
    ensures var r := EvaluateBy(k, s, c, Canon(c), Who(c), rule, p, cap, check);
            r.Some? ==> Lawful(k, s, c, r.value)
  {
    FilingLawful(k, s, c, p, [rule] + check.rules + ["provenance.unavailable"], Grants.ProvenanceReason, cap, Some(check),
                 c.provenanceAgain);
  }

  lemma EvaluateLawful(k: Config, s: State, c: Call, rule: string)
    requires Authentic(c) && c.op == Evaluate
    ensures var r := JudgeEvaluate(k, s, c, Canon(c), Who(c), rule); r.Some? ==> Lawful(k, s, c, r.value)
  {
    var p := Parse(Canon(c));
    if p.Asked? {
      if PolicyBlocks(k, s.policy) {
        FilingLawful(k, s, c, p, ["evaluate", "policy.blocks_permit"], Grants.PolicyReason, None, None, c.provenance);
      } else {
        var cap, ask := EvaluateCapability(k, c, Who(c), p), AskOf(Who(c), p);
        var check := CheckCapability(cap, ask, false, SituationOf(k, c));
        EvaluateCapabilityRegistered(k, c, Who(c), p);
        if check.decision == Allow { AllowNeedsCapability(k, c, ask, cap, false); }
        EvaluateByLawful(k, s, c, rule, p, cap, check);
      }
    }
  }

  // ---------------------------------------------------------------- reenter

  lemma ReenterCapabilityRegistered(k: Config, s: State, c: Call, who: string, p: Parsed, id: string)
    requires p.Asked?
    ensures var cap := ReenterCapability(k, s, c, who, p, id); cap.Some? ==> cap.value in c.caps
  {
    var cap := ReenterCapability(k, s, c, who, p, id);
    var grant := GrantFor(s, id);
    if cap.Some? && !(grant.Some? && grant.value.terms.capability != "") {
      CandidatesAreRegistered(c.caps, who, c.now, cap.value);
    }
  }

  lemma RedemptionLawful(k: Config, s: State, c: Call, rules: seq<string>, p: Parsed, id: string, cap: Option<Capability>, check: Check)
    requires Authentic(c) && c.op == Reenter && p.Asked? && p == Parse(Canon(c)) && !PolicyBlocks(k, s.policy)
    requires id in s.escalations && RecordRefusal(s.escalations[id], Who(c)).None?
    requires Presents(k, c, id) && c.provenance.Matches?
    requires AllowedLive(k, c, AskOf(Who(c), p), Skips(GrantFor(s, id), p))
    ensures Lawful(k, s, c, RedemptionRuling(k, s, c, Canon(c), Who(c), rules, p, id, cap, check))
  {
  }

  lemma ReenterByLawful(k: Config, s: State, c: Call, rule: string, p: Parsed, id: string, cap: Option<Capability>, check: Check)
    requires Authentic(c) && c.op == Reenter && p.Asked? && p == Parse(Canon(c)) && !PolicyBlocks(k, s.policy)
    requires id in s.escalations && RecordRefusal(s.escalations[id], Who(c)).None?
    requires Presents(k, c, id)
    requires check.decision == Allow ==> AllowedLive(k, c, AskOf(Who(c), p), Skips(GrantFor(s, id), p))
    ensures Lawful(k, s, c, ReenterBy(k, s, c, Canon(c), Who(c), rule, p, id, cap, check))
  {
    if check.decision == Allow && c.provenance.Matches? {
      RedemptionLawful(k, s, c, [rule, "reentry.escalation_matched"] + check.rules, p, id, cap, check);
    }
  }

  lemma ReenterLawful(k: Config, s: State, c: Call, rule: string)
    requires Authentic(c) && c.op == Reenter
    ensures Lawful(k, s, c, JudgeReenter(k, s, c, Canon(c), Who(c), rule))
  {
    var given := Get(Canon(c), "escalation_id");
    var id := k.str(given);
    if given.Truthy() && id in s.escalations && RecordRefusal(s.escalations[id], Who(c)).None? {
      ReenterOnLawful(k, s, c, rule, id);
    }
  }

  lemma ReenterOnLawful(k: Config, s: State, c: Call, rule: string, id: string)
    requires Authentic(c) && c.op == Reenter
    requires id in s.escalations && RecordRefusal(s.escalations[id], Who(c)).None?
    requires Presents(k, c, id)
    ensures Lawful(k, s, c, ReenterOn(k, s, c, Canon(c), Who(c), rule, id))
  {
    var p := Parse(Canon(c));
    if p.Asked? && !PolicyBlocks(k, s.policy) {
      var cap, ask, skip := ReenterCapability(k, s, c, Who(c), p, id), AskOf(Who(c), p), Skips(GrantFor(s, id), p);
      var check := CheckCapability(cap, ask, skip, SituationOf(k, c));
      ReenterCapabilityRegistered(k, s, c, Who(c), p, id);
      if check.decision == Allow { AllowNeedsCapability(k, c, ask, cap, skip); }
      ReenterByLawful(k, s, c, rule, p, id, cap, check);
    }
  }

  // ---------------------------------------------------------------- every call

  lemma DecideLawful(k: Config, s: State, c: Call, rule: string)
    requires Authentic(c) && c.op == Decide
    ensures Lawful(k, s, c, JudgeDecide(k, s, c, Canon(c), Who(c), rule))
  {
  }

  lemma UpdatePolicyLawful(k: Config, s: State, c: Call, rule: string)
    requires Authentic(c) && c.op == UpdatePolicy
    ensures Lawful(k, s, c, JudgeUpdatePolicy(k, c, Canon(c), Who(c), rule))
  {
  }

  lemma DenialLawful(k: Config, s: State, c: Call, rules: seq<string>)
    requires Authentic(c)
    ensures Lawful(k, s, c, Denial(rules, Canon(c), Some(Who(c))))
  {
  }

  lemma EvidenceLawful(k: Config, s: State, c: Call, op: Evidence.Op, accepted: seq<string>, rejected: string)
    requires Authentic(c) && ActsAs(c, op)
    ensures Lawful(k, s, c, EvidenceRuling(s, Canon(c), Who(c), op, accepted, rejected))
  {
  }

  lemma CreateEvidenceLawful(k: Config, s: State, c: Call, rule: string)
    requires Authentic(c) && c.op == CreateEvidence
    ensures Lawful(k, s, c, JudgeCreateEvidence(k, s, Canon(c), Who(c), rule))
  {
    var id := Get(Canon(c), "evidence_id");
    DenialLawful(k, s, c, ["evidence.bad_request"]);
    EvidenceLawful(k, s, c, Evidence.Create(k.str(id), Who(c), Get(Canon(c), "content")), [rule, "evidence.candidate"],
                   "evidence.create_rejected");
  }

  lemma VerifyEvidenceLawful(k: Config, s: State, c: Call, rule: string)
    requires Authentic(c) && c.op == VerifyEvidence
    ensures Lawful(k, s, c, JudgeVerifyEvidence(k, s, c, Canon(c), Who(c), rule))
  {
    var cap := SelectCapability(c.caps, Who(c), RIv, c.now);
    var id, result := Get(Canon(c), "evidence_id"), Get(Canon(c), "verification_result");
    if cap.None? || !cap.value.Active(c.now) {
      DenialLawful(k, s, c, ["evidence.no_capability"]);
    } else if !id.Truthy() {
      DenialLawful(k, s, c, ["evidence.bad_request"]);
    } else {
      EvidenceLawful(k, s, c, Evidence.Op.Verify(k.str(id), Who(c), cap.value.role, result),
                     [rule, if result == JBool(true) then "evidence.verified" else "evidence.verification_failed"],
                     "evidence.verify_rejected");
    }
  }

  lemma AuthorizeEvidenceLawful(k: Config, s: State, c: Call, rule: string)
    requires Authentic(c) && c.op == AuthorizeEvidence
    ensures Lawful(k, s, c, JudgeAuthorizeEvidence(k, s, c, Canon(c), Who(c), rule))
  {
    var cap := SelectCapability(c.caps, Who(c), RDec, c.now);
    var id, result := Get(Canon(c), "evidence_id"), Get(Canon(c), "authorization_result");
    if cap.None? || !cap.value.Active(c.now) {
      DenialLawful(k, s, c, ["evidence.no_capability"]);
    } else if !id.Truthy() {
      DenialLawful(k, s, c, ["evidence.bad_request"]);
    } else {
      EvidenceLawful(k, s, c, Evidence.Authorize(k.str(id), Who(c), cap.value.role, result),
                     [rule, if result == JBool(true) then "evidence.authorized" else "evidence.authorization_failed"],
                     "evidence.authorize_rejected");
    }
  }

  /** Every ruling, of every call in every state, is lawful. */
  lemma RulingsAreLawful(k: Config, s: State, c: Call)
    ensures Lawful(k, s, c, TheRuling(k, s, c))
  {
    if Authentic(c) {
      match c.op
      case Evaluate => EvaluateLawful(k, s, c, c.authn.rule);
      case Reenter => ReenterLawful(k, s, c, c.authn.rule);
      case Decide => DecideLawful(k, s, c, c.authn.rule);
      case CreateEvidence => CreateEvidenceLawful(k, s, c, c.authn.rule);
      case VerifyEvidence => VerifyEvidenceLawful(k, s, c, c.authn.rule);
      case AuthorizeEvidence => AuthorizeEvidenceLawful(k, s, c, c.authn.rule);
      case UpdatePolicy => UpdatePolicyLawful(k, s, c, c.authn.rule);
    }
  }
}
