/** What every call goes through, whatever it asks for: reading the request, the early denials, and the audit entry. */
module KernelRecords {
  import opened Domain
  import opened JsonValues
  import opened Authorization
  import opened Kernel
  import opened Rulings
  import opened KernelSteps
  import opened KernelOrigin
  import opened KernelExact
  import opened KernelOutcomes
  import Mandates
  import Grants

  // ---------------------------------------------------------------- reading the request

  /** How a request spells an action. */
  function ActionText(a: Action): string {
    match a
    case Inspect => "INSPECT"
    case Propose => "PROPOSE"
    case Execute => "EXECUTE"
    case Verify => "VERIFY"
    case Commit => "COMMIT"
  }

  function RiskText(r: Risk): string {
    match r
    case Low => "LOW"
    case Medium => "MEDIUM"
    case High => "HIGH"
  }

  lemma ActionRead(v: Json, a: Action)
    ensures ActionNamed(v) == Some(a) <==> v == JStr(ActionText(a))
  {
    assert JStr("INSPECT").s[0] == 'I' && JStr("PROPOSE").s[0] == 'P' && JStr("EXECUTE").s[0] == 'E';
    assert JStr("VERIFY").s[0] == 'V' && JStr("COMMIT").s[0] == 'C';
  }

  lemma RiskRead(v: Json, r: Risk)
    ensures RiskNamed(v) == Some(r) <==> v == JStr(RiskText(r))
    ensures v == JStr(RiskText(r)) ==> v != JNull && v != JStr("")
  {
    assert JStr("LOW").s[0] == 'L' && JStr("MEDIUM").s[0] == 'M' && JStr("HIGH").s[0] == 'H';
  }

  /** A request is read as asking this exactly when its three fields spell it; anything else is malformed. */
  lemma ReadExactlyWhen(canon: Fields, a: Action, d: string, r: Risk)
    ensures Parse(canon) == Asked(a, d, r) <==>
            && Get(canon, "action_type") == JStr(ActionText(a)) && Get(canon, "domain") == JStr(d) && d != ""
            && Get(canon, "risk_level") == JStr(RiskText(r))
  {
    ActionRead(Get(canon, "action_type"), a);
    RiskRead(Get(canon, "risk_level"), r);
  }

  /** The field a malformed request is refused for: the first of the three that is wrong. */
  lemma MalformedTold(canon: Fields)
    ensures var p, risk := Parse(canon), Get(canon, "risk_level");
            && ((forall a :: Get(canon, "action_type") != JStr(ActionText(a))) ==> p == Malformed("schema.action_type"))
            && ((exists a :: Get(canon, "action_type") == JStr(ActionText(a))) && !Get(canon, "domain").NonEmptyString() ==>
                  p == Malformed("schema.domain"))
            && ((exists a :: Get(canon, "action_type") == JStr(ActionText(a))) && Get(canon, "domain").NonEmptyString() ==>
                  && (risk == JNull || risk == JStr("") ==> p == Malformed("schema.risk_missing"))
                  && (risk != JNull && risk != JStr("") && (forall r :: risk != JStr(RiskText(r))) ==> p == Malformed("schema.risk")))
  {
    var action, risk := ActionNamed(Get(canon, "action_type")), RiskNamed(Get(canon, "risk_level"));
    if action.Some? { ActionRead(Get(canon, "action_type"), action.value); }
    if a :| Get(canon, "action_type") == JStr(ActionText(a)) { ActionRead(Get(canon, "action_type"), a); }
    if risk.Some? { RiskRead(Get(canon, "risk_level"), risk.value); }
  }

  // ---------------------------------------------------------------- early denials

  /** A call is authenticated exactly when the kernel is available, its request could be captured, and the
      authenticator vouches for a principal. */
  lemma AuthenticExactlyWhen(c: Call)
    ensures Authentic(c) <==> c.available && c.snapshot.Some? && c.authn.Identified? && c.authn.ok && c.authn.principal.Some?
  {
  }

  /** The rule an unauthenticated call is denied with. */
  function EarlyRule(c: Call): string
    requires !Authentic(c)
  {
    if !c.available then "mediator.unavailable"
    else if c.snapshot.None? then "canon.failed"
    else if c.authn.AuthnRaises? then "authn.error"
    else c.authn.rule
  }

  /** A call that is not authenticated is denied, names no escalation, and changes nothing but the audit log. */
  lemma EarlyDenial(k: Config, s: State, c: Call)
    requires !Authentic(c)
    ensures var t, d := Gated(k, s, c).0, Gated(k, s, c).1;
            && d.verdict == Deny && d.escalation.None? && d.grant.None?
            && d.bound == (if c.available && c.snapshot.Some? && c.authn.Identified? then c.authn.principal else None)
            && Ruled(k, s, c).rules == [EarlyRule(c)]
            && t == s.(audit := t.audit)
  {
  }

  // ---------------------------------------------------------------- the audit entry

  /** The request as the entry describes it; empty when it could not be captured. */
  function Described(c: Call): Fields {
    if c.available && c.snapshot.Some? then c.snapshot.value else map[]
  }

  lemma RuledDescribes(k: Config, s: State, c: Call)
    ensures Ruled(k, s, c).canon == Described(c)
  {
    RuledLawful(k, s, c);
  }

  /** The entry describes the call and its ruling, field by field. */
  predicate Describes(k: Config, e: AuditEntry, c: Call, r: Ruling) {
    && e.request == Get(Described(c), "request_id") && e.agentClaim == Get(Described(c), "agent_id")
    && e.action == Get(Described(c), "action_type") && e.domain == Get(Described(c), "domain")
    && e.risk == Get(Described(c), "risk_level")
    && e.payload == k.sha(Described(c) - {"nonce", "timestamp", "mac", "escalation_id"})
    && e.bound == r.bound && (Authentic(c) ==> e.bound == Some(Who(c)))
    && e.verdict == r.verdict && e.granted == (r.verdict == Permit) && e.rules == r.rules
    && e.escalation == r.escalation && e.ownerDecision == r.ownerDecision
    && (r.frame.None? ==> e.provenance.None? && e.mandateId.None? && e.ceiling.None?)
    && (r.frame.Some? ==> e.provenance == r.frame.value.provenance && e.mandateId == r.frame.value.mandateId
                          && e.ceiling == r.frame.value.ceiling)
  }

  /** A call whose record can be built and appended adds one entry that describes it; any other adds none. */
  lemma EntryDescribesCall(k: Config, s: State, c: Call)
    ensures var t, r := Gated(k, s, c).0.audit, Ruled(k, s, c);
            if c.recordBuilds && c.append.Returned? then
              |t| == |s.audit| + 1 && t[..|s.audit|] == s.audit && Describes(k, t[|s.audit|], c, r)
            else t == s.audit
  {
    AuditParts(k, s, c);
    RuledDescribes(k, s, c);
    RuledLawful(k, s, c);
  }

  /** What is handed out with a PERMIT names the request and the principal. */
  lemma PermitCarries(k: Config, s: State, c: Call)
    requires Gated(k, s, c).1.verdict == Permit
    ensures Authentic(c)
    ensures Gated(k, s, c).1.grant == Some(GrantNote(Get(Canon(c), "request_id"), Who(c), Get(Canon(c), "action_type"),
                                                     Get(Canon(c), "domain"), Get(Canon(c), "risk_level")))
    ensures Gated(k, s, c).1.auditHash == Some(c.append.hash) && c.append.hash != ""
  {
    DecisionParts(k, s, c);
    RuledLawful(k, s, c);
    DecisionTold(k, s, c);
  }
  /** A check of this request that allows. */
  ghost predicate AllowedBy(k: Config, c: Call, check: Option<Check>) {
    Authentic(c) && Parse(Canon(c)).Asked? && check.Some? && check.value.decision == Allow &&
    exists cap, skip :: check.value == CheckCapability(cap, Asks(c), skip, SituationOf(k, c))
  }

  lemma Allowing(k: Config, c: Call, cap: Option<Capability>, skip: bool)
    requires Authentic(c) && Parse(Canon(c)).Asked? && CheckCapability(cap, Asks(c), skip, SituationOf(k, c)).decision == Allow
    ensures AllowedBy(k, c, Some(CheckCapability(cap, Asks(c), skip, SituationOf(k, c))))
  {
  }

  lemma EvaluateFrame(k: Config, s: State, c: Call)
    requires Authentic(c) && c.op == Evaluate && TheRuling(k, s, c).verdict == Permit
    ensures AllowedBy(k, c, TheRuling(k, s, c).frame)
  {
    var p := Parse(Canon(c));
    if p.Asked? {
      var cap := EvaluateCapability(k, c, Who(c), p);
      EvaluateByNames(k, s, c, Canon(c), Who(c), c.authn.rule, p, cap, BestCheck(k, c));
      EvaluateByPermits(k, s, c, p, cap, BestCheck(k, c));
      if !PolicyBlocks(k, s.policy) { Allowing(k, c, cap, false); }
    }
  }

  lemma AnswerFrame(k: Config, s: State, c: Call, id: string)
    requires Authentic(c) && ReenterOn(k, s, c, Canon(c), Who(c), c.authn.rule, id).verdict == Permit
    ensures AllowedBy(k, c, ReenterOn(k, s, c, Canon(c), Who(c), c.authn.rule, id).frame)
  {
    var p := Parse(Canon(c));
    if p.Asked? {
      var cap := ReenterCapability(k, s, c, Who(c), p, id);
      var check := LiveCheckOf(k, s, c, id, cap);
      ReenterByNames(k, s, c, Canon(c), Who(c), c.authn.rule, p, id, cap, check);
      ReenterByPermits(k, s, c, Canon(c), Who(c), c.authn.rule, p, id, cap, check);
      if !PolicyBlocks(k, s.policy) { Allowing(k, c, cap, Skips(GrantFor(s, id), p)); }
    }
  }

  lemma ReenterFrame(k: Config, s: State, c: Call, id: string)
    requires Presents(k, c, id) && TheRuling(k, s, c).verdict == Permit
    ensures AllowedBy(k, c, TheRuling(k, s, c).frame)
  {
    assert TheRuling(k, s, c) == ReenterOn(k, s, c, Canon(c), Who(c), c.authn.rule, id);
    AnswerFrame(k, s, c, id);
  }

  lemma PermitComesFrom(k: Config, s: State, c: Call, r: Ruling)
    requires Lawful(k, s, c, r) && r.verdict == Permit
    ensures Authentic(c) && (c.op == Evaluate || (r.escalation.Some? && Presents(k, c, r.escalation.value)))
  {
  }

  /** The frame of a PERMIT is that of the check that allowed it. */
  lemma PermitFrame(k: Config, s: State, c: Call)
    requires TheRuling(k, s, c).verdict == Permit
    ensures AllowedBy(k, c, TheRuling(k, s, c).frame)
  {
    RulingsAreLawful(k, s, c);
    PermitComesFrom(k, s, c, TheRuling(k, s, c));
    if c.op == Evaluate {
      EvaluateFrame(k, s, c);
    } else {
      ReenterFrame(k, s, c, TheRuling(k, s, c).escalation.value);
    }
  }

  /** What the entry of a permitted call quotes when a context is required: the mandate that covered the request, where
      it came from, and a ceiling that the request respects and the mandate does not fall below. */
  lemma PermitQuotesItsMandate(k: Config, s: State, c: Call)
    requires Ruled(k, s, c).verdict == Permit && k.requireContext
    ensures Ruled(k, s, c).frame.Some? && Authentic(c) && Parse(Canon(c)).Asked? && c.context.Some?
    ensures var f, m := Ruled(k, s, c).frame.value, Mandates.MandateOf(k.reader, c.context.value.mandate);
            && m.Some? && f.mandateId == Some(m.value.id) && f.provenance == Some(c.context.value.provenance)
            && f.ceiling.Some? && Parse(Canon(c)).risk.Rank() <= f.ceiling.value.Rank() <= m.value.scope.Ceiling().Rank()
  {
    PermitFrame(k, Seen(k, s, c), c);
    var check := Ruled(k, s, c).frame.value;
    var cap, skip :| check == CheckCapability(cap, Asks(c), skip, SituationOf(k, c));
    FrameTells(cap, Asks(c), skip, SituationOf(k, c));
    AllowedFrameTells(cap, Asks(c), skip, SituationOf(k, c));
    AllowRespectsBothCeilings(cap, Asks(c), skip, SituationOf(k, c));
  }
}
