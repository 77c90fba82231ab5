/** The mediator of axiomgate_kernel/mediator.py as a function: what each of the seven gated calls decides, and what
    becomes of the decision when it is recorded. */
module Kernel {
  import opened Domain
  import opened JsonValues
  import opened Mandates
  import opened Authorization
  import opened Policies
  import Registry
  import Grants
  import Escalations
  import Evidence
  import Observations

  // ---------------------------------------------------------------- what a call finds outside the kernel

  datatype Operation = Evaluate | Reenter | Decide | CreateEvidence | VerifyEvidence | AuthorizeEvidence | UpdatePolicy
  {
    function Name(): string {
      match this
      case Evaluate => "evaluate"
      case Reenter => "reenter"
      case Decide => "decide"
      case CreateEvidence => "evidence.create"
      case VerifyEvidence => "evidence.verify"
      case AuthorizeEvidence => "evidence.authorize"
      case UpdatePolicy => "update_policy"
    }
  }

  /** One answer of the injected provenance checker. */
  datatype Provenance = CheckRaises | Matches(identity: string, drift: bool) | Mismatches(identity: string) | Unavailable(identity: string)
  {
    /** The identity a new grant is bound to. */
    function Identity(): string {
      if CheckRaises? then "" else identity
    }
  }

  datatype Authn = AuthnRaises | Identified(ok: bool, principal: Option<string>, rule: string)

  datatype AppendOutcome = AppendRaises | Returned(hash: string)

  /** One gated call with everything it meets: the caller's request (None when it cannot be canonicalised), the
      answers of the injected dependencies, the registry and the clock at that moment, and the ids it would draw. */
  datatype Call = Call(
    op: Operation,
    available: bool,
    snapshot: Option<Fields>,
    authn: Authn,
    caps: seq<Capability>,
    context: Option<Context>,
    now: int,
    provenance: Provenance,
    provenanceAgain: Provenance,
    newId: string,
    newGrantId: string,
    recordBuilds: bool,
    append: AppendOutcome)

  /** What the kernel is built with: sha is sha256_hex over canonical bytes, str is str, scope is scope_hash. */
  datatype Config = Config(
    sha: Fields -> string,
    str: Json -> string,
    scope: Capability -> string,
    grantTtl: int,
    requireContext: bool,
    reader: Reader)
  {
    /** str(x or ""). */
    function TextOr(v: Json): string {
      if v.Truthy() then str(v) else ""
    }

    function PayloadHash(canon: Fields): string {
      sha(canon - PER_MESSAGE)
    }
  }

  /** The fields the payload hash leaves out. */
  const PER_MESSAGE := {"nonce", "timestamp", "mac", "escalation_id"}

  // ---------------------------------------------------------------- what a call leaves behind

  datatype GrantNote = GrantNote(request: Json, principal: string, action: Json, domain: Json, risk: Json)

  datatype Decision = Decision(
    verdict: Verdict,
    rules: seq<string>,
    bound: Option<string>,
    grant: Option<GrantNote>,
    escalation: Option<string>,
    auditHash: Option<string>,
    ownerDecision: Option<string>)

  /** The record handed to the audit log, without its timestamp and free-text reason. */
  datatype AuditEntry = AuditEntry(
    request: Json,
    bound: Option<string>,
    agentClaim: Json,
    action: Json,
    domain: Json,
    risk: Json,
    verdict: Verdict,
    rules: seq<string>,
    escalation: Option<string>,
    ownerDecision: Option<string>,
    granted: bool,
    payload: string,
    observation: Option<nat>,
    provenance: Option<string>,
    mandateId: Option<string>,
    ceiling: Option<Risk>)

  datatype State = State(
    policy: Option<Policy>,
    escalations: Escalations.Items,
    grants: Grants.GrantState,
    evidence: Evidence.Journal,
    observations: Option<seq<Observations.Observation>>,
    audit: seq<AuditEntry>)

  // ---------------------------------------------------------------- what an operation rules

  /** The one change an operation makes before its decision is recorded. */
  datatype Effect =
    | Nothing
    | Escalates(record: Escalations.Escalation, grant: Grants.Grant)
    | Decides(id: string, decision: string, owner: string)
    | Redeems(id: string)
    | Installs(policy: Policy)
    | Advances(op: Evidence.Op)

  /** The arguments an operation finishes with. */
  datatype Ruling = Ruling(
    verdict: Verdict,
    rules: seq<string>,
    canon: Fields,
    bound: Option<string>,
    grant: Option<GrantNote>,
    escalation: Option<string>,
    ownerDecision: Option<string>,
    frame: Option<Check>,
    effect: Effect)

  function Denial(rules: seq<string>, canon: Fields, bound: Option<string>): Ruling {
    Ruling(Deny, rules, canon, bound, None, None, None, None, Nothing)
  }

  /** A refusal that names the escalation it concerns. */
  function DenialOf(rules: seq<string>, canon: Fields, who: string, id: string, frame: Option<Check>): Ruling {
    Ruling(Deny, rules, canon, Some(who), None, Some(id), None, frame, Nothing)
  }

  // ---------------------------------------------------------------- the request's own fields

  datatype Parsed = Asked(action: Action, domain: string, risk: Risk) | Malformed(rule: string)

  function ActionNamed(v: Json): Option<Action> {
    if v == JStr("INSPECT") then Some(Inspect)
    else if v == JStr("PROPOSE") then Some(Propose)
    else if v == JStr("EXECUTE") then Some(Execute)
    else if v == JStr("VERIFY") then Some(Verify)
    else if v == JStr("COMMIT") then Some(Commit)
    else None
  }

  function RiskNamed(v: Json): Option<Risk> {
    if v == JStr("LOW") then Some(Low)
    else if v == JStr("MEDIUM") then Some(Medium)
    else if v == JStr("HIGH") then Some(High)
    else None
  }

  function Parse(canon: Fields): Parsed {
    var domain, risk := Get(canon, "domain"), Get(canon, "risk_level");
    if ActionNamed(Get(canon, "action_type")).None? then Malformed("schema.action_type")
    else if !domain.NonEmptyString() then Malformed("schema.domain")
    else if risk == JNull || risk == JStr("") then Malformed("schema.risk_missing")
    else if RiskNamed(risk).None? then Malformed("schema.risk")
    else Asked(ActionNamed(Get(canon, "action_type")).value, domain.s, RiskNamed(risk).value)
  }

  function AskOf(who: string, p: Parsed): Ask
    requires p.Asked?
  {
    Ask(who, p.action, p.domain, p.risk)
  }

  function SituationOf(k: Config, c: Call): Situation {
    Situation(k.requireContext, c.context, c.now, k.reader)
  }

  // ---------------------------------------------------------------- capabilities

  function Wrapped(caps: seq<Capability>): (r: seq<Option<Capability>>)
    ensures |r| == |caps|
    ensures forall i | 0 <= i < |caps| :: r[i] == Some(caps[i])
  {
    seq(|caps|, i requires 0 <= i < |caps| => Some(caps[i]))
  }

  /** The candidates of the capability loops: the active ones, else all of the principal, else none at all. */
  function Candidates(caps: seq<Capability>, who: string, now: int): (r: seq<Option<Capability>>)
    ensures r != []
  {
    if Registry.ActiveFor(caps, who, now) != [] then Wrapped(Registry.ActiveFor(caps, who, now))
    else if Registry.ForPrincipal(caps, who) != [] then Wrapped(Registry.ForPrincipal(caps, who))
    else [None]
  }

  function WithRole(caps: seq<Capability>, role: Role): seq<Capability> {
    if caps == [] then []
    else (if caps[0].role == role then [caps[0]] else []) + WithRole(caps[1..], role)
  }

  function SelectCapability(caps: seq<Capability>, who: string, role: Role, now: int): Option<Capability> {
    var active := WithRole(Registry.ActiveFor(caps, who, now), role);
    var bound := WithRole(Registry.ForPrincipal(caps, who), role);
    if active != [] then Some(active[0]) else if bound != [] then Some(bound[0]) else None
  }

  /** The principal holds an active capability with this role. */
  predicate Holds(caps: seq<Capability>, who: string, role: Role, now: int) {
    var cap := SelectCapability(caps, who, role, now);
    cap.Some? && cap.value.role == role && cap.value.Active(now)
  }

  // ---------------------------------------------------------------- escalating and permitting

  function PolicyHash(policy: Option<Policy>): string {
    if policy.Some? then policy.value.hash else ""
  }

  predicate PolicyBlocks(k: Config, policy: Option<Policy>) {
    policy.None? || policy.value.BlocksPermit(k.sha)
  }

  /** What a grant is bound to, and what a redemption presents. */
  function TermsOf(k: Config, policy: Option<Policy>, canon: Fields, who: string, p: Parsed, cap: Option<Capability>,
                   identity: string): Grants.Terms
    requires p.Asked?
  {
    Grants.Terms(who, k.TextOr(Get(canon, "agent_id")), k.TextOr(Get(canon, "request_id")), p.action, p.domain, p.risk,
                 k.PayloadHash(canon), if cap.Some? then cap.value.id else "", if cap.Some? then k.scope(cap.value) else "",
                 PolicyHash(policy), identity)
  }

  function NewEscalation(k: Config, s: State, c: Call, canon: Fields, who: string, p: Parsed, reason: Grants.ReasonClass,
                         cap: Option<Capability>, prov: Provenance): Effect
    requires p.Asked?
  {
    Escalates(Escalations.Filed(c.newId, k.TextOr(Get(canon, "request_id")), who, k.PayloadHash(canon), reason),
              Grants.Grant(c.newId, TermsOf(k, s.policy, canon, who, p, cap, prov.Identity()), reason, "", c.now + k.grantTtl, false))
  }

  /** Filing a new escalation. None: the drawn id is taken and the store raises. */
  function EscalateNew(k: Config, s: State, c: Call, canon: Fields, who: string, p: Parsed, rules: seq<string>,
                       reason: Grants.ReasonClass, cap: Option<Capability>, frame: Option<Check>, prov: Provenance): Option<Ruling>
    requires p.Asked?
  {
    if c.newId in s.escalations then None
    else
      Some(Ruling(Escalate, rules + ["escalate.created"], canon, Some(who), None, Some(c.newId), None, frame,
                  NewEscalation(k, s, c, canon, who, p, reason, cap, prov)))
  }

  /** Escalating again under the id the re-entry came with. */
  function EscalateAgain(canon: Fields, who: string, rules: seq<string>, id: string): Ruling {
    Ruling(Escalate, rules + ["escalate.created"], canon, Some(who), None, Some(id), None, None, Nothing)
  }

  function NoteOf(canon: Fields, who: string): GrantNote {
    GrantNote(Get(canon, "request_id"), who, Get(canon, "action_type"), Get(canon, "domain"), Get(canon, "risk_level"))
  }

  function DriftRules(prov: Provenance): seq<string> {
    if prov.Matches? && prov.drift then ["provenance.head_drift_diagnostic"] else []
  }

  function Permission(canon: Fields, who: string, rules: seq<string>, prov: Provenance, id: Option<string>,
                      frame: Check, effect: Effect): Ruling
  {
    Ruling(Permit, rules + DriftRules(prov) + ["provenance.ok"], canon, Some(who), Some(NoteOf(canon, who)), id, None,
           Some(frame), effect)
  }

  // ---------------------------------------------------------------- evaluate

  function ReasonOf(check: Check): Grants.ReasonClass {
    if "authz.owner_mandatory_action" in check.rules then Grants.MandatoryAction else Grants.MandatoryRisk
  }

  /** evaluate, once the strongest capability check is known. */
  function EvaluateBy(k: Config, s: State, c: Call, canon: Fields, who: string, rule: string, p: Parsed,
                      cap: Option<Capability>, check: Check): Option<Ruling>
    requires p.Asked?
  {
    var rules := [rule] + check.rules;
    match check.decision
    case Refuse => Some(Denial(rules, canon, Some(who)).(frame := Some(check)))
    case OwnerMandatory => EscalateNew(k, s, c, canon, who, p, rules, ReasonOf(check), cap, Some(check), c.provenance)
    case Allow =>
      match c.provenance
      case Matches(_, _) => Some(Permission(canon, who, rules, c.provenance, None, check, Nothing))
      case Mismatches(_) => Some(Denial(rules + ["provenance.mismatch"], canon, Some(who)).(frame := Some(check)))
      case _ =>
        EscalateNew(k, s, c, canon, who, p, rules + ["provenance.unavailable"], Grants.ProvenanceReason, cap, Some(check),
                    c.provenanceAgain)
  }

  function EvaluateCapability(k: Config, c: Call, who: string, p: Parsed): Option<Capability>
    requires p.Asked?
  {
    var caps := Candidates(c.caps, who, c.now);
    caps[EvaluateChoice(Dispositions(caps, DeciderFor(AskOf(who, p), SituationOf(k, c))))]
  }

  function JudgeEvaluate(k: Config, s: State, c: Call, canon: Fields, who: string, rule: string): Option<Ruling> {
    var p := Parse(canon);
    if p.Malformed? then Some(Denial([p.rule], canon, Some(who)))
    else if PolicyBlocks(k, s.policy)
    then EscalateNew(k, s, c, canon, who, p, ["evaluate", "policy.blocks_permit"], Grants.PolicyReason, None, None, c.provenance)
    else
      var cap := EvaluateCapability(k, c, who, p);
      EvaluateBy(k, s, c, canon, who, rule, p, cap, CheckCapability(cap, AskOf(who, p), false, SituationOf(k, c)))
  }

  // ---------------------------------------------------------------- reenter

  /** Why the record itself stops a re-entry. */
  function RecordRefusal(r: Escalations.Escalation, who: string): Option<string> {
    if r.status == Escalations.Pending then Some("reentry.pending")
    else if r.ownerDecision != Some("permit") then Some("reentry.owner_deny")
    else if r.status == Escalations.Resolved then Some("reentry.already_resolved")
    else if who != r.principal then Some("reentry.principal_mismatch")
    else None
  }

  function GrantFor(s: State, id: string): Option<Grants.Grant> {
    if id in s.grants.cells then Some(s.grants.cells[id].grant) else None
  }

  /** The capability bound to the grant, or the strongest one now. */
  function ReenterCapability(k: Config, s: State, c: Call, who: string, p: Parsed, id: string): Option<Capability>
    requires p.Asked?
  {
    var grant := GrantFor(s, id);
    if grant.Some? && grant.value.terms.capability != "" then Registry.GetCap(c.caps, grant.value.terms.capability)
    else
      var caps := Candidates(c.caps, who, c.now);
      caps[ReenterChoice(Dispositions(caps, DeciderFor(AskOf(who, p), SituationOf(k, c))))]
  }

  /** The Owner's permit for exactly this mandatory action or risk stands in for escalating again. */
  predicate Skips(grant: Option<Grants.Grant>, p: Parsed)
    requires p.Asked?
  {
    && grant.Some? && grant.value.ownerDecision == "permit" && !grant.value.consumed
    && ((grant.value.reason == Grants.MandatoryAction && grant.value.terms.action == p.action)
        || (grant.value.reason == Grants.MandatoryRisk && grant.value.terms.risk == p.risk))
  }

  /** Redeeming the grant, the last thing that can refuse a re-entry. */
  function RedemptionRuling(k: Config, s: State, c: Call, canon: Fields, who: string, rules: seq<string>, p: Parsed, id: string,
                            cap: Option<Capability>, check: Check): Ruling
    requires p.Asked? && c.provenance.Matches?
  {
    if Grants.RefuseRedeem(s.grants, id, TermsOf(k, s.policy, canon, who, p, cap, c.provenance.identity), c.now).Some?
    then DenialOf(rules + ["grant.rejected"], canon, who, id, Some(check))
    else Permission(canon, who, rules, c.provenance, Some(id), check, Redeems(id))
  }

  /** reenter, once the live capability check is known. */
  function ReenterBy(k: Config, s: State, c: Call, canon: Fields, who: string, rule: string, p: Parsed, id: string,
                     cap: Option<Capability>, check: Check): Ruling
    requires p.Asked?
  {
    var rules := [rule, "reentry.escalation_matched"] + check.rules;
    if check.decision != Allow then DenialOf(rules, canon, who, id, Some(check))
    else
      match c.provenance
      case Mismatches(_) => DenialOf(rules + ["provenance.mismatch"], canon, who, id, Some(check))
      case Matches(_, _) => RedemptionRuling(k, s, c, canon, who, rules, p, id, cap, check)
      case _ =>
        Ruling(Escalate, rules + ["provenance.unavailable"], canon, Some(who), None, Some(id), None, Some(check), Nothing)
  }

  /** reenter on a decided escalation that is the caller's own. */
  function ReenterOn(k: Config, s: State, c: Call, canon: Fields, who: string, rule: string, id: string): Ruling {
    var p := Parse(canon);
    if p.Malformed? then Denial([p.rule], canon, Some(who))
    else if PolicyBlocks(k, s.policy) then EscalateAgain(canon, who, ["reentry", rule, "policy.blocks_permit"], id)
    else
      var cap := ReenterCapability(k, s, c, who, p, id);
      var check := CheckCapability(cap, AskOf(who, p), Skips(GrantFor(s, id), p), SituationOf(k, c));
      ReenterBy(k, s, c, canon, who, rule, p, id, cap, check)
  }

  function JudgeReenter(k: Config, s: State, c: Call, canon: Fields, who: string, rule: string): Ruling {
    var given := Get(canon, "escalation_id");
    var id := k.str(given);
    if !given.Truthy() then Denial(["reentry.missing_id"], canon, Some(who))
    else if id !in s.escalations then Denial(["reentry.not_found"], canon, Some(who))
    else if RecordRefusal(s.escalations[id], who).Some?
    then DenialOf([RecordRefusal(s.escalations[id], who).value], canon, who, id, None)
    else ReenterOn(k, s, c, canon, who, rule, id)
  }

  // ---------------------------------------------------------------- the Owner's calls

  function JudgeDecide(k: Config, s: State, c: Call, canon: Fields, who: string, rule: string): Ruling {
    var given := Get(canon, "owner_decision");
    var id := k.str(Get(canon, "escalation_id"));
    if who != OWNER then Denial(["decide.not_owner"], canon, Some(who))
    else if !Holds(c.caps, who, RDec, c.now) then Denial(["decide.not_authorized"], canon, Some(who))
    else if given != JStr("permit") && given != JStr("deny") then Denial(["decide.invalid_value"], canon, Some(who))
    else DecisionRuling(s, canon, who, rule, id, given.s)
  }

  function DecisionRuling(s: State, canon: Fields, who: string, rule: string, id: string, decision: string): Ruling {
    if Escalations.RefuseDecide(s.escalations, id, decision).Some? then Denial(["decide.rejected"], canon, Some(who))
    else Ruling(Deny, [rule, "decide.recorded"], canon, Some(who), None, Some(id), Some(decision), None, Decides(id, decision, who))
  }

  function JudgeUpdatePolicy(k: Config, c: Call, canon: Fields, who: string, rule: string): Ruling {
    if who != OWNER then Denial(["policy.update_not_owner"], canon, Some(who))
    else if !Holds(c.caps, who, RDec, c.now) then Denial(["policy.update_not_authorized"], canon, Some(who))
    else PolicyRuling(k, canon, who, rule)
  }

  function PolicyRuling(k: Config, canon: Fields, who: string, rule: string): Ruling {
    var version, body := Get(canon, "policy_version"), Get(canon, "policy_body");
    if !version.NonEmptyString() || !body.JObj? then Denial(["policy.update_bad_request"], canon, Some(who))
    else
      var policy := FromBody(k.sha, version.s, body.fields);
      if policy.BlocksPermit(k.sha) then Denial(["policy.update_rejected"], canon, Some(who))
      else Denial([rule, "policy.updated"], canon, Some(who)).(effect := Installs(policy))
  }

  // ---------------------------------------------------------------- evidence

  function EvidenceRuling(s: State, canon: Fields, who: string, op: Evidence.Op, accepted: seq<string>, rejected: string): Ruling {
    if Evidence.Refuse(s.evidence.current, op).Some? then Denial([rejected], canon, Some(who))
    else Denial(accepted, canon, Some(who)).(effect := Advances(op))
  }

  function JudgeCreateEvidence(k: Config, s: State, canon: Fields, who: string, rule: string): Ruling {
    var id := Get(canon, "evidence_id");
    if !id.Truthy() then Denial(["evidence.bad_request"], canon, Some(who))
    else EvidenceRuling(s, canon, who, Evidence.Create(k.str(id), who, Get(canon, "content")),
                        [rule, "evidence.candidate"], "evidence.create_rejected")
  }

  function JudgeVerifyEvidence(k: Config, s: State, c: Call, canon: Fields, who: string, rule: string): Ruling {
    var cap := SelectCapability(c.caps, who, RIv, c.now);
    var id, result := Get(canon, "evidence_id"), Get(canon, "verification_result");
    if cap.None? || !cap.value.Active(c.now) then Denial(["evidence.no_capability"], canon, Some(who))
    else if !id.Truthy() then Denial(["evidence.bad_request"], canon, Some(who))
    else EvidenceRuling(s, canon, who, Evidence.Op.Verify(k.str(id), who, cap.value.role, result),
                        [rule, if result == JBool(true) then "evidence.verified" else "evidence.verification_failed"],
                        "evidence.verify_rejected")
  }

  function JudgeAuthorizeEvidence(k: Config, s: State, c: Call, canon: Fields, who: string, rule: string): Ruling {
    var cap := SelectCapability(c.caps, who, RDec, c.now);
    var id, result := Get(canon, "evidence_id"), Get(canon, "authorization_result");
    if cap.None? || !cap.value.Active(c.now) then Denial(["evidence.no_capability"], canon, Some(who))
    else if !id.Truthy() then Denial(["evidence.bad_request"], canon, Some(who))
    else EvidenceRuling(s, canon, who, Evidence.Authorize(k.str(id), who, cap.value.role, result),
                        [rule, if result == JBool(true) then "evidence.authorized" else "evidence.authorization_failed"],
                        "evidence.authorize_rejected")
  }

  /** What the operation rules. None: it raises before finishing. */
  function Judge(k: Config, s: State, c: Call, canon: Fields, who: string, rule: string): Option<Ruling> {
    match c.op
    case Evaluate => JudgeEvaluate(k, s, c, canon, who, rule)
    case Reenter => Some(JudgeReenter(k, s, c, canon, who, rule))
    case Decide => Some(JudgeDecide(k, s, c, canon, who, rule))
    case CreateEvidence => Some(JudgeCreateEvidence(k, s, canon, who, rule))
    case VerifyEvidence => Some(JudgeVerifyEvidence(k, s, c, canon, who, rule))
    case AuthorizeEvidence => Some(JudgeAuthorizeEvidence(k, s, c, canon, who, rule))
    case UpdatePolicy => Some(JudgeUpdatePolicy(k, c, canon, who, rule))
  }

  // ---------------------------------------------------------------- carrying it out and recording it

  function Apply(s: State, effect: Effect, now: int): State {
    match effect
    case Nothing => s
    case Escalates(record, grant) =>
      s.(escalations := s.escalations[record.id := record], grants := Grants.Created(s.grants, grant))
    case Decides(id, decision, owner) =>
      s.(escalations := Escalations.DecideOn(s.escalations, id, decision, owner), grants := Grants.Attached(s.grants, id, decision))
    case Redeems(id) => if id in s.grants.cells then s.(grants := Grants.Redeemed(s.grants, id)) else s
    case Installs(policy) => s.(policy := Some(policy))
    case Advances(op) => s.(evidence := Evidence.After(s.evidence, op, now))
  }

  /** The ruling as recorded: a PERMIT without a grant would become a DENY. */
  function Settled(r: Ruling): Ruling {
    if r.verdict == Permit && r.grant.None? then r.(verdict := Deny, rules := r.rules + ["permit.missing_grant"]) else r
  }

  function EntryOf(k: Config, r: Ruling, observation: Option<nat>): AuditEntry {
    var f := r.frame;
    AuditEntry(Get(r.canon, "request_id"), r.bound, Get(r.canon, "agent_id"), Get(r.canon, "action_type"), Get(r.canon, "domain"),
               Get(r.canon, "risk_level"), r.verdict, r.rules, r.escalation, r.ownerDecision, r.verdict == Permit,
               k.PayloadHash(r.canon), observation,
               if f.Some? then f.value.provenance else None,
               if f.Some? then f.value.mandateId else None,
               if f.Some? then f.value.ceiling else None)
  }

  /** Any failure to record rolls back the grant of the escalation that the ruling names. */
  function RolledBack(s: State, escalation: Option<string>): State {
    if escalation.None? then s else s.(grants := Grants.Unconsumed(s.grants, escalation.value))
  }

  function Failed(r: Ruling, verdict: Verdict, why: string): Decision {
    Decision(verdict, r.rules + [why], r.bound, None, r.escalation, None, r.ownerDecision)
  }

  /** _finish. */
  function Finish(k: Config, s: State, c: Call, r: Ruling, observation: Option<nat>): (State, Decision) {
    Record(k, s, c, Settled(r), observation)
  }

  /** What becomes of a settled ruling: its audit record is built and appended, or not. */
  function Record(k: Config, s: State, c: Call, r: Ruling, observation: Option<nat>): (State, Decision) {
    if !c.recordBuilds then (RolledBack(s, r.escalation), Failed(r, Deny, "record.build_failed"))
    else if c.append.AppendRaises?
    then (RolledBack(s, r.escalation), Failed(r, if r.verdict == Permit then Deny else r.verdict, "audit.write_failed"))
    else (s.(audit := s.audit + [EntryOf(k, r, observation)]), Announced(r, c.append.hash))
  }

  /** What the caller gets once the record is in the log. */
  function Announced(r: Ruling, hash: string): Decision {
    if r.verdict == Permit && hash == "" then Failed(r, Deny, "audit.hash_missing").(ownerDecision := None)
    else Decision(r.verdict, r.rules, r.bound, if r.verdict == Permit then r.grant else None, r.escalation, Some(hash),
                  r.ownerDecision)
  }

  /** Carry out the effect, record the ruling, and resolve the escalation when the re-entry was permitted. */
  function Conclude(k: Config, s: State, c: Call, r: Ruling, observation: Option<nat>): (State, Decision) {
    var (s', d) := Finish(k, Apply(s, r.effect, c.now), c, r, observation);
    if d.verdict == Permit && r.effect.Redeems?
    then (s'.(escalations := Escalations.ResolveIn(s'.escalations, r.effect.id)), d)
    else (s', d)
  }

  /** _observe: the number the audit entry will cite. */
  function Observe(k: Config, s: State, canon: Fields, who: string): (State, Option<nat>) {
    if s.observations.None? then (s, None)
    else
      var (log, number) := Observations.Observe(s.observations.value, who, Get(canon, "request_id"), k.PayloadHash(canon));
      (s.(observations := Some(log)), number)
  }

  /** What stops a call before an identity exists; None when it got past authentication. */
  function EarlyRuling(c: Call): Option<Ruling> {
    if !c.available then Some(Denial(["mediator.unavailable"], map[], None))
    else if c.snapshot.None? then Some(Denial(["canon.failed"], map[], None))
    else if c.authn.AuthnRaises? then Some(Denial(["authn.error"], c.snapshot.value, None))
    else if !c.authn.ok || c.authn.principal.None? then Some(Denial([c.authn.rule], c.snapshot.value, c.authn.principal))
    else None
  }

  /** The call got past authentication, as this principal. */
  predicate Authentic(c: Call) {
    EarlyRuling(c).None?
  }

  /** The ruling of an authenticated call; an operation that raised is denied. */
  function RulingOf(k: Config, s: State, c: Call): Ruling
    requires Authentic(c)
  {
    match Judge(k, s, c, c.snapshot.value, c.authn.principal.value, c.authn.rule)
    case Some(r) => r
    case None => Denial([c.op.Name() + ".error"], c.snapshot.value, c.authn.principal)
  }

  function TheRuling(k: Config, s: State, c: Call): Ruling {
    if Authentic(c) then RulingOf(k, s, c) else EarlyRuling(c).value
  }

  /** An authenticated call is observed before anything is decided. */
  function Noticed(k: Config, s: State, c: Call): (State, Option<nat>) {
    if Authentic(c) then Observe(k, s, c.snapshot.value, c.authn.principal.value) else (s, None)
  }

  /** One gated call. */
  function Gated(k: Config, s: State, c: Call): (State, Decision) {
    var (s', observation) := Noticed(k, s, c);
    Conclude(k, s', c, TheRuling(k, s', c), observation)
  }
}
