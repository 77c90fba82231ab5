/** The Owner's calls and the evidence calls: exactly when each is accepted, and what an accepted one changes. None of
    them ever answers anything but DENY. */
module KernelOwner {
  import opened Domain
  import opened JsonValues
  import opened Authorization
  import opened Policies
  import opened Kernel
  import opened Rulings
  import opened KernelSteps
  import opened KernelOrigin
  import opened KernelOutcomes
  import Registry
  import Grants
  import Escalations
  import Evidence

  // ---------------------------------------------------------------- holding a role

  /** The principal has a registered capability in force with this role. */
  ghost predicate InRole(caps: seq<Capability>, who: string, role: Role, now: int) {
    exists cap :: cap in caps && cap.role == role && InForce(cap, who, now)
  }

  lemma {:induction false} WithRoleFinds(caps: seq<Capability>, role: Role, cap: Capability)
    ensures cap in WithRole(caps, role) <==> cap in caps && cap.role == role
  {
    if caps != [] {
      WithRoleFinds(caps[1..], role, cap);
      assert caps == [caps[0]] + caps[1..];
    }
  }

  lemma ActiveWithRole(caps: seq<Capability>, who: string, role: Role, now: int, cap: Capability)
    ensures cap in WithRole(Registry.ActiveFor(caps, who, now), role) <==> cap in caps && cap.role == role && InForce(cap, who, now)
  {
    WithRoleFinds(Registry.ActiveFor(caps, who, now), role, cap);
    Registry.LookupsComeFromTheRegistry(caps, who, now, cap);
  }

  /** The capability that _select_capability picks has the role; it is active exactly when the principal has an active
      one with that role at all. */
  lemma HoldsExactlyWhen(caps: seq<Capability>, who: string, role: Role, now: int)
    ensures Holds(caps, who, role, now) <==> InRole(caps, who, role, now)
    ensures var cap := SelectCapability(caps, who, role, now);
            cap.Some? ==> cap.value.role == role && cap.value in caps && cap.value.principal == who
  {
    var active, bound := WithRole(Registry.ActiveFor(caps, who, now), role), WithRole(Registry.ForPrincipal(caps, who), role);
    if active != [] {
      ActiveWithRole(caps, who, role, now, active[0]);
    } else {
      if bound != [] {
        WithRoleFinds(Registry.ForPrincipal(caps, who), role, bound[0]);
        Registry.LookupsComeFromTheRegistry(caps, who, now, bound[0]);
        ActiveWithRole(caps, who, role, now, bound[0]);
      }
      if cap :| cap in caps && cap.role == role && InForce(cap, who, now) {
        ActiveWithRole(caps, who, role, now, cap);
      }
    }
  }

  // ---------------------------------------------------------------- decide

  /** The Owner, in the decision role, says permit or deny on a pending escalation. */
  ghost predicate Decides(k: Config, s: State, c: Call, id: string) {
    && Authentic(c) && Who(c) == "owner" && InRole(c.caps, "owner", RDec, c.now)
    && (Get(Canon(c), "owner_decision") == JStr("permit") || Get(Canon(c), "owner_decision") == JStr("deny"))
    && id in s.escalations && s.escalations[id].status == Escalations.Pending
  }

  lemma DecideRules(k: Config, s: State, c: Call, id: string)
    requires Authentic(c) && c.op == Decide && id == k.str(Get(Canon(c), "escalation_id"))
    ensures var r := TheRuling(k, s, c);
            && r.verdict == Deny
            && if Decides(k, s, c, id) then
                 var said := Get(Canon(c), "owner_decision").s;
                 && r.effect == Kernel.Decides(id, said, "owner") && r.escalation == Some(id) && r.ownerDecision == Some(said)
                 && r.rules == [c.authn.rule, "decide.recorded"]
               else r.effect == Nothing && r.escalation.None? && r.ownerDecision.None?
  {
    HoldsExactlyWhen(c.caps, Who(c), RDec, c.now);
  }

  /** The record as decided. */
  function DecidedRecord(e: Escalations.Escalation, said: string): Escalations.Escalation {
    Escalations.Escalation(e.id, e.request, e.principal, e.payload, e.reason, Escalations.Decided, Some(said), Some("owner"))
  }

  function DecidedGrants(g: Grants.GrantState, id: string, said: string): Grants.GrantState {
    if id !in g.cells then g
    else
      var cell := g.cells[id];
      g.(cells := g.cells[id := Grants.Cell(cell.grant.(ownerDecision := said), cell.execution)])
  }

  lemma DecisionStores(s: State, id: string, said: string, now: int)
    requires id in s.escalations && s.escalations[id].status == Escalations.Pending && (said == "permit" || said == "deny")
    ensures var a := Apply(s, Kernel.Decides(id, said, "owner"), now);
            && a.escalations == s.escalations[id := DecidedRecord(s.escalations[id], said)]
            && a.grants == DecidedGrants(s.grants, id, said)
  {
  }

  lemma DecidedStores(k: Config, s: State, c: Call, id: string, said: string)
    requires Ruled(k, s, c).effect == Kernel.Decides(id, said, "owner") && Ruled(k, s, c).escalation == Some(id)
    requires id in s.escalations && s.escalations[id].status == Escalations.Pending && (said == "permit" || said == "deny")
    ensures var t, decided := Gated(k, s, c).0, DecidedGrants(s.grants, id, said);
            && t.escalations == s.escalations[id := DecidedRecord(s.escalations[id], said)]
            && t.grants == if Recorded(c) then decided else Grants.Unconsumed(decided, id)
  {
    SeenOnlyObserves(k, s, c);
    DecisionStores(Seen(k, s, c), id, said, c.now);
    GrantParts(k, s, c);
    EscalationParts(k, s, c);
  }

  lemma RuledDecision(k: Config, s: State, c: Call, id: string)
    requires Authentic(c) && c.op == Decide && id == k.str(Get(Canon(c), "escalation_id"))
    ensures var r := Ruled(k, s, c);
            && r.verdict == Deny
            && if Decides(k, s, c, id) then
                 var said := Get(Canon(c), "owner_decision").s;
                 r.effect == Kernel.Decides(id, said, "owner") && r.escalation == Some(id)
               else r.effect == Nothing && r.escalation.None?
  {
    SeenOnlyObserves(k, s, c);
    DecideRules(k, Seen(k, s, c), c, id);
  }

  /** decide takes effect exactly when the Owner, in the decision role, says permit or deny on a pending escalation: the
      record is decided that way in the Owner's name and the grant carries it, whatever becomes of the audit record.
      Otherwise nothing changes. Either way the answer is DENY. */
  lemma DecideTakesEffectExactlyWhen(k: Config, s: State, c: Call, id: string)
    requires Authentic(c) && c.op == Decide && id == k.str(Get(Canon(c), "escalation_id"))
    ensures var t, d := Gated(k, s, c).0, Gated(k, s, c).1;
            && d.verdict == Deny
            && if Decides(k, s, c, id) then
                 var said := Get(Canon(c), "owner_decision").s; var decided := DecidedGrants(s.grants, id, said);
                 && d.escalation == Some(id)
                 && t.escalations == s.escalations[id := DecidedRecord(s.escalations[id], said)]
                 && t.grants == if Recorded(c) then decided else Grants.Unconsumed(decided, id)
               else d.escalation.None? && StoresKept(s, t)
  {
    RuledDecision(k, s, c, id);
    DecisionParts(k, s, c);
    EscalateVerdict(k, s, c);
    if Decides(k, s, c, id) {
      DecidedStores(k, s, c, id, Get(Canon(c), "owner_decision").s);
    } else {
      IdleStores(k, s, c);
    }
  }
  /** The reason decide gives. */
  lemma DecideReasons(k: Config, s: State, c: Call, id: string)
    requires Authentic(c) && c.op == Decide && id == k.str(Get(Canon(c), "escalation_id"))
    ensures var r, said := TheRuling(k, s, c), Get(Canon(c), "owner_decision");
            r.rules == if Who(c) != "owner" then ["decide.not_owner"]
                       else if !InRole(c.caps, "owner", RDec, c.now) then ["decide.not_authorized"]
                       else if said != JStr("permit") && said != JStr("deny") then ["decide.invalid_value"]
                       else if !Decides(k, s, c, id) then ["decide.rejected"]
                       else [c.authn.rule, "decide.recorded"]
  {
    HoldsExactlyWhen(c.caps, Who(c), RDec, c.now);
  }

  // ---------------------------------------------------------------- update_policy

  /** The policy an update describes. */
  function Proposed(k: Config, c: Call): Policy
    requires Authentic(c) && Get(Canon(c), "policy_version").JStr? && Get(Canon(c), "policy_body").JObj?
  {
    var body := Get(Canon(c), "policy_body").fields;
    Policy(Get(Canon(c), "policy_version").s, body, "sha256:" + k.sha(body), true)
  }

  /** The Owner, in the decision role, proposes a named policy that serves. */
  ghost predicate Updates(k: Config, c: Call) {
    && Authentic(c) && Who(c) == "owner" && InRole(c.caps, "owner", RDec, c.now)
    && Get(Canon(c), "policy_version").JStr? && Get(Canon(c), "policy_version").s != "" && Get(Canon(c), "policy_body").JObj?
    && !Proposed(k, c).BlocksPermit(k.sha)
  }

  lemma UpdateRules(k: Config, s: State, c: Call)
    requires Authentic(c) && c.op == UpdatePolicy
    ensures var r := TheRuling(k, s, c);
            && r.verdict == Deny && r.escalation.None? && r.ownerDecision.None?
            && if Updates(k, c) then r.effect == Installs(Proposed(k, c)) && r.rules == [c.authn.rule, "policy.updated"]
               else r.effect == Nothing
  {
    HoldsExactlyWhen(c.caps, Who(c), RDec, c.now);
  }

  lemma UpdateReasons(k: Config, s: State, c: Call)
    requires Authentic(c) && c.op == UpdatePolicy && !Updates(k, c)
    ensures TheRuling(k, s, c).rules ==
            if Who(c) != "owner" then ["policy.update_not_owner"]
            else if !InRole(c.caps, "owner", RDec, c.now) then ["policy.update_not_authorized"]
            else if !Get(Canon(c), "policy_version").NonEmptyString() || !Get(Canon(c), "policy_body").JObj?
            then ["policy.update_bad_request"]
            else ["policy.update_rejected"]
  {
    HoldsExactlyWhen(c.caps, Who(c), RDec, c.now);
  }

  lemma ConcludePolicy(k: Config, s: State, c: Call)
    ensures Gated(k, s, c).0.policy == if Ruled(k, s, c).effect.Installs? then Some(Ruled(k, s, c).effect.policy) else s.policy
  {
    SeenOnlyObserves(k, s, c);
    PolicyConcluded(k, Seen(k, s, c), c, Ruled(k, s, c), Noticed(k, s, c).1);
  }

  lemma PolicyConcluded(k: Config, s: State, c: Call, r: Ruling, observation: Option<nat>)
    ensures Conclude(k, s, c, r, observation).0.policy == if r.effect.Installs? then Some(r.effect.policy) else s.policy
  {
  }

  /** The policy changes exactly by an update of the Owner, in the decision role, to a named policy that serves, and
      becomes what the update describes. update_policy itself always answers DENY and touches no escalation. */
  lemma PolicyChangesExactlyWhen(k: Config, s: State, c: Call)
    ensures Gated(k, s, c).0.policy == if c.op == UpdatePolicy && Updates(k, c) then Some(Proposed(k, c)) else s.policy
    ensures c.op == UpdatePolicy ==> Gated(k, s, c).1.verdict == Deny && StoresKept(s, Gated(k, s, c).0)
  {
    ConcludePolicy(k, s, c);
    if c.op != UpdatePolicy {
      OthersLeavePolicy(k, s, c);
    } else {
      if Authentic(c) { UpdateRules(k, Seen(k, s, c), c); }
      PlainStores(k, s, c);
      DeniedAnyway(k, s, c);
    }
  }

  lemma OthersLeavePolicy(k: Config, s: State, c: Call)
    requires c.op != UpdatePolicy
    ensures !Ruled(k, s, c).effect.Installs?
  {
    RuledLawful(k, s, c);
  }

  /** A call whose effect is on policy or evidence, and that names no escalation, leaves both stores alone. */
  lemma PlainStores(k: Config, s: State, c: Call)
    requires c.op != Evaluate && c.op != Reenter && c.op != Decide
    ensures StoresKept(s, Gated(k, s, c).0)
  {
    SeenOnlyObserves(k, s, c);
    RuledLawful(k, s, c);
    NoNames(k, Seen(k, s, c), c, Ruled(k, s, c));
    GrantParts(k, s, c);
    EscalationParts(k, s, c);
  }

  lemma NoNames(k: Config, s: State, c: Call, r: Ruling)
    requires Lawful(k, s, c, r) && c.op != Evaluate && c.op != Reenter && c.op != Decide
    ensures r.escalation.None? && r.verdict != Permit
    ensures StoresKept(s, Apply(s, r.effect, c.now))
  {
  }
  // ---------------------------------------------------------------- evidence

  /** The journal after the call: one step in the caller's name when the request names an evidence id and the caller
      holds the role in force that the step needs; otherwise what it was. A refused step changes nothing either. */
  ghost function EvidenceAfter(k: Config, j: Evidence.Journal, c: Call): Evidence.Journal {
    if !Authentic(c) || !Get(Canon(c), "evidence_id").Truthy() then j
    else
      var id := k.str(Get(Canon(c), "evidence_id"));
      if c.op == CreateEvidence then Evidence.After(j, Evidence.Create(id, Who(c), Get(Canon(c), "content")), c.now)
      else if c.op == VerifyEvidence && InRole(c.caps, Who(c), RIv, c.now)
      then Evidence.After(j, Evidence.Op.Verify(id, Who(c), RIv, Get(Canon(c), "verification_result")), c.now)
      else if c.op == AuthorizeEvidence && InRole(c.caps, Who(c), RDec, c.now)
      then Evidence.After(j, Evidence.Authorize(id, Who(c), RDec, Get(Canon(c), "authorization_result")), c.now)
      else j
  }

  /** What a ruling leaves of the journal. */
  function StepOf(r: Ruling, j: Evidence.Journal, now: int): Evidence.Journal {
    if r.effect.Advances? then Evidence.After(j, r.effect.op, now) else j
  }

  lemma VerifyJudged(k: Config, s: State, c: Call, canon: Fields, who: string, rule: string)
    ensures var r := JudgeVerifyEvidence(k, s, c, canon, who, rule);
            var id, result := Get(canon, "evidence_id"), Get(canon, "verification_result");
            var op := Evidence.Op.Verify(k.str(id), who, RIv, result);
            && r.verdict == Deny
            && if !InRole(c.caps, who, RIv, c.now) then r.effect == Nothing && r.rules == ["evidence.no_capability"]
               else if !id.Truthy() then r.effect == Nothing && r.rules == ["evidence.bad_request"]
               else
                 && StepOf(r, s.evidence, c.now) == Evidence.After(s.evidence, op, c.now)
                 && r.rules == if Evidence.Refuse(s.evidence.current, op).Some? then ["evidence.verify_rejected"]
                               else [rule, if result == JBool(true) then "evidence.verified" else "evidence.verification_failed"]
  {
    HoldsExactlyWhen(c.caps, who, RIv, c.now);
  }

  lemma AuthorizeJudged(k: Config, s: State, c: Call, canon: Fields, who: string, rule: string)
    ensures var r := JudgeAuthorizeEvidence(k, s, c, canon, who, rule);
            var id, result := Get(canon, "evidence_id"), Get(canon, "authorization_result");
            var op := Evidence.Authorize(k.str(id), who, RDec, result);
            && r.verdict == Deny
            && if !InRole(c.caps, who, RDec, c.now) then r.effect == Nothing && r.rules == ["evidence.no_capability"]
               else if !id.Truthy() then r.effect == Nothing && r.rules == ["evidence.bad_request"]
               else
                 && StepOf(r, s.evidence, c.now) == Evidence.After(s.evidence, op, c.now)
                 && r.rules == if Evidence.Refuse(s.evidence.current, op).Some? then ["evidence.authorize_rejected"]
                               else [rule, if result == JBool(true) then "evidence.authorized" else "evidence.authorization_failed"]
  {
    HoldsExactlyWhen(c.caps, who, RDec, c.now);
  }

  lemma CreateJudged(k: Config, s: State, canon: Fields, who: string, rule: string, now: int)
    ensures var r, id := JudgeCreateEvidence(k, s, canon, who, rule), Get(canon, "evidence_id");
            var op := Evidence.Create(k.str(id), who, Get(canon, "content"));
            && r.verdict == Deny
            && if !id.Truthy() then r.effect == Nothing && r.rules == ["evidence.bad_request"]
               else
                 && StepOf(r, s.evidence, now) == Evidence.After(s.evidence, op, now)
                 && r.rules == if Evidence.Refuse(s.evidence.current, op).Some? then ["evidence.create_rejected"]
                               else [rule, "evidence.candidate"]
  {
  }

  lemma ConcludeEvidence(k: Config, s: State, c: Call, r: Ruling, observation: Option<nat>)
    ensures Conclude(k, s, c, r, observation).0.evidence == StepOf(r, s.evidence, c.now)
  {
  }

  lemma OthersLeaveEvidence(k: Config, s: State, c: Call, r: Ruling)
    requires Lawful(k, s, c, r) && c.op != CreateEvidence && c.op != VerifyEvidence && c.op != AuthorizeEvidence
    ensures !r.effect.Advances?
  {
  }

  lemma RuledEvidence(k: Config, s: State, c: Call)
    ensures StepOf(TheRuling(k, s, c), s.evidence, c.now) == EvidenceAfter(k, s.evidence, c)
  {
    RulingsAreLawful(k, s, c);
    if Authentic(c) && c.op == CreateEvidence {
      CreateJudged(k, s, Canon(c), Who(c), c.authn.rule, c.now);
    } else if Authentic(c) && c.op == VerifyEvidence {
      VerifyJudged(k, s, c, Canon(c), Who(c), c.authn.rule);
    } else if Authentic(c) && c.op == AuthorizeEvidence {
      AuthorizeJudged(k, s, c, Canon(c), Who(c), c.authn.rule);
    } else if Authentic(c) {
      OthersLeaveEvidence(k, s, c, TheRuling(k, s, c));
    }
  }

  /** The journal after any call, exactly; and an evidence call always answers DENY and touches no escalation. */
  lemma EvidenceChangesExactlyWhen(k: Config, s: State, c: Call)
    ensures Gated(k, s, c).0.evidence == EvidenceAfter(k, s.evidence, c)
    ensures c.op in {CreateEvidence, VerifyEvidence, AuthorizeEvidence} ==>
              Gated(k, s, c).1.verdict == Deny && StoresKept(s, Gated(k, s, c).0)
  {
    SeenOnlyObserves(k, s, c);
    RuledEvidence(k, Seen(k, s, c), c);
    ConcludeEvidence(k, Seen(k, s, c), c, Ruled(k, s, c), Noticed(k, s, c).1);
    if c.op in {CreateEvidence, VerifyEvidence, AuthorizeEvidence} {
      PlainStores(k, s, c);
      DeniedAnyway(k, s, c);
    }
  }

  lemma DeniedAnyway(k: Config, s: State, c: Call)
    requires c.op != Evaluate && c.op != Reenter
    ensures Gated(k, s, c).1.verdict == Deny
  {
    RuledLawful(k, s, c);
    OnlyTwoEscalate(k, Seen(k, s, c), c);
    EscalateVerdict(k, s, c);
    DecisionParts(k, s, c);
    NeverPermits(k, Seen(k, s, c), c, Ruled(k, s, c));
  }

  lemma NeverPermits(k: Config, s: State, c: Call, r: Ruling)
    requires Lawful(k, s, c, r) && c.op != Evaluate && c.op != Reenter
    ensures r.verdict != Permit
  {
  }

  lemma OnlyTwoEscalate(k: Config, s: State, c: Call)
    requires c.op != Evaluate && c.op != Reenter
    ensures TheRuling(k, s, c).verdict != Escalate
  {
    if Authentic(c) {
      match c.op
      case Decide => DecideRules(k, s, c, k.str(Get(Canon(c), "escalation_id")));
      case UpdatePolicy => UpdateRules(k, s, c);
      case CreateEvidence => CreateJudged(k, s, Canon(c), Who(c), c.authn.rule, c.now);
      case VerifyEvidence => VerifyJudged(k, s, c, Canon(c), Who(c), c.authn.rule);
      case AuthorizeEvidence => AuthorizeJudged(k, s, c, Canon(c), Who(c), c.authn.rule);
      case _ =>
    }
  }
}
