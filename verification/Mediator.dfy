/** The Mediator object of axiomgate_kernel/mediator.py: its fields, its seven gated calls and their private helpers,
    proved against the functions of module Kernel. */
module Mediation {
  import opened Domain
  import opened JsonValues
  import opened Authorization
  import opened Policies
  import opened Kernel
  import Registry
  import Grants
  import Escalations
  import Evidence
  import Observations
  import ExecutionLogs

  /** How a helper comes back: the caller goes on, a decision was reached, or an exception is on its way to the gate. */
  datatype Answer = Proceed | Reached(decision: Decision) | Raised

  /** Without a redemption, carrying out and recording is all there is. */
  lemma ConcludeByFinish(k: Config, s: State, c: Call, r: Ruling, observation: Option<nat>)
    requires !r.effect.Redeems?
    ensures Conclude(k, s, c, r, observation)
            == Kernel.Finish(k, Apply(s, r.effect, c.now), c, r.(effect := Nothing), observation)
  {
  }

  lemma ConcludeRedemption(k: Config, s: State, c: Call, r: Ruling, s': State, d: Decision, observation: Option<nat>)
    requires r.effect.Redeems?
    requires (s', d) == Kernel.Finish(k, Apply(s, r.effect, c.now), c, r.(effect := Nothing), observation)
    ensures Conclude(k, s, c, r, observation)
            == (if d.verdict == Permit then s'.(escalations := Escalations.ResolveIn(s'.escalations, r.effect.id)) else s', d)
  {
  }

  class Mediator {
    const k: Config
    const escalations: Escalations.EscalationStore
    const grants: Grants.ReservedGrantStore
    const evidence: Evidence.EvidenceJournal
    const observations: Observations.ObservationLog?
    var policy: Option<Policy>
    var audit: seq<AuditEntry>                // what the injected audit log has accepted
    var inFlight: Option<nat>                 // the observation of the call in flight

    constructor (k: Config, policy: Option<Policy>, observations: Observations.ObservationLog?, executions: ExecutionLogs.ExecutionLog?)
      ensures Valid() && this.k == k && fresh(escalations) && fresh(grants) && fresh(evidence)
      ensures this.observations == observations && grants.executions == executions
      ensures View() == State(policy, map[], Grants.GrantState(map[], if executions == null then None else Some(executions.entries)),
                              Evidence.Journal([], map[]), if observations == null then None else Some(observations.records), [])
    {
      this.k := k;
      this.policy := policy;
      this.observations := observations;
      escalations := new Escalations.EscalationStore();
      grants := new Grants.ReservedGrantStore(k.grantTtl, executions);
      evidence := new Evidence.EvidenceJournal();
      audit, inFlight := [], None;
    }

    ghost predicate Valid()
      reads this, grants
    {
      grants.Valid() && grants.ttl == k.grantTtl
    }

    ghost function View(): State
      requires Valid()
      reads this, escalations, grants, grants.executions, evidence, observations
    {
      State(policy, escalations.items, grants.State(), evidence.State(),
            if observations == null then None else Some(observations.records), audit)
    }

    /** The parts of the object no helper below the gate touches. */
    twostate predicate SameCall()
      reads this, grants
    {
      Valid() && inFlight == old(inFlight)
    }

    // -------------------------------------------------------------- recording

    method RollBack(escalation: Option<string>)
      requires Valid()
      modifies grants, grants.executions
      ensures Valid() && View() == RolledBack(old(View()), escalation)
    {
      if escalation.Some? { grants.Unconsume(escalation.value); }
    }

    method Finish(c: Call, verdict: Verdict, rules: seq<string>, canon: Fields, bound: Option<string>, grant: Option<GrantNote>,
                  escalation: Option<string>, ownerDecision: Option<string>, frame: Option<Check>) returns (d: Decision)
      requires Valid()
      modifies this, grants, grants.executions
      ensures SameCall()
      ensures (View(), d) == Kernel.Finish(k, old(View()), c,
                Ruling(verdict, rules, canon, bound, grant, escalation, ownerDecision, frame, Nothing), inFlight)
    {
      if verdict == Permit && grant.None? {
        d := Record(c, Deny, rules + ["permit.missing_grant"], canon, bound, grant, escalation, ownerDecision, frame);
      } else {
        d := Record(c, verdict, rules, canon, bound, grant, escalation, ownerDecision, frame);
      }
    }

    /** The rest of _finish, from the building of the record on. */
    method Record(c: Call, verdict: Verdict, rules: seq<string>, canon: Fields, bound: Option<string>, grant: Option<GrantNote>,
                  escalation: Option<string>, ownerDecision: Option<string>, frame: Option<Check>) returns (d: Decision)
      requires Valid()
      modifies this, grants, grants.executions
      ensures SameCall()
      ensures (View(), d) == Kernel.Record(k, old(View()), c,
                Ruling(verdict, rules, canon, bound, grant, escalation, ownerDecision, frame, Nothing), inFlight)
    {
      ghost var r := Ruling(verdict, rules, canon, bound, grant, escalation, ownerDecision, frame, Nothing);
      if !c.recordBuilds {
        d := FailClosed(Deny, rules + ["record.build_failed"], bound, escalation, ownerDecision);
        assert d == Failed(r, Deny, "record.build_failed");
        return;
      }
      var record := AuditRecord(verdict, rules, canon, bound, escalation, ownerDecision, frame);
      if c.append.AppendRaises? {
        d := FailClosed(if verdict == Permit then Deny else verdict, rules + ["audit.write_failed"], bound, escalation, ownerDecision);
        assert d == Failed(r, if verdict == Permit then Deny else verdict, "audit.write_failed");
        return;
      }
      AppendRecord(record);
      d := Announce(verdict, rules, bound, grant, escalation, ownerDecision, c.append.hash, r);
    }

    /** The injected audit log takes the record. */
    method AppendRecord(record: AuditEntry)
      requires Valid()
      modifies this`audit
      ensures Valid() && View() == old(View()).(audit := old(audit) + [record])
    {
      audit := audit + [record];
    }

    /** A failure to record: the grant is rolled back and nothing is granted. */
    method FailClosed(verdict: Verdict, rules: seq<string>, bound: Option<string>, escalation: Option<string>,
                      ownerDecision: Option<string>) returns (d: Decision)
      requires Valid()
      modifies grants, grants.executions
      ensures Valid() && View() == RolledBack(old(View()), escalation)
      ensures d == Decision(verdict, rules, bound, None, escalation, None, ownerDecision)
    {
      RollBack(escalation);
      return Decision(verdict, rules, bound, None, escalation, None, ownerDecision);
    }

    /** The decision handed back once its record is in the log. */
    method Announce(verdict: Verdict, rules: seq<string>, bound: Option<string>, grant: Option<GrantNote>, escalation: Option<string>,
                    ownerDecision: Option<string>, hash: string, ghost r: Ruling) returns (d: Decision)
      requires r == Ruling(verdict, rules, r.canon, bound, grant, escalation, ownerDecision, r.frame, r.effect)
      ensures d == Announced(r, hash)
    {
      if verdict == Permit && hash == "" {
        return Decision(Deny, rules + ["audit.hash_missing"], bound, None, escalation, None, None);
      }
      return Decision(verdict, rules, bound, if verdict == Permit then grant else None, escalation, Some(hash), ownerDecision);
    }

    method AuditRecord(verdict: Verdict, rules: seq<string>, canon: Fields, bound: Option<string>, escalation: Option<string>,
                       ownerDecision: Option<string>, frame: Option<Check>) returns (record: AuditEntry)
      ensures record == EntryOf(k, Ruling(verdict, rules, canon, bound, None, escalation, ownerDecision, frame, Nothing), inFlight)
    {
      return AuditEntry(Get(canon, "request_id"), bound, Get(canon, "agent_id"), Get(canon, "action_type"), Get(canon, "domain"),
                        Get(canon, "risk_level"), verdict, rules, escalation, ownerDecision, verdict == Permit,
                        k.PayloadHash(canon), inFlight,
                        if frame.Some? then frame.value.provenance else None,
                        if frame.Some? then frame.value.mandateId else None,
                        if frame.Some? then frame.value.ceiling else None);
    }

    /** The shape most denials take. */
    method Denied(c: Call, rules: seq<string>, canon: Fields, bound: Option<string>, frame: Option<Check>) returns (d: Decision)
      requires Valid()
      modifies this, grants, grants.executions
      ensures SameCall()
      ensures (View(), d) == Conclude(k, old(View()), c, Denial(rules, canon, bound).(frame := frame), inFlight)
    {
      d := Finish(c, Deny, rules, canon, bound, None, None, None, frame);
    }

    method DeniedOf(c: Call, rules: seq<string>, canon: Fields, who: string, id: string, frame: Option<Check>) returns (d: Decision)
      requires Valid()
      modifies this, grants, grants.executions
      ensures SameCall()
      ensures (View(), d) == Conclude(k, old(View()), c, DenialOf(rules, canon, who, id, frame), inFlight)
    {
      d := Finish(c, Deny, rules, canon, Some(who), None, Some(id), None, frame);
    }

    // -------------------------------------------------------------- shared helpers

    method ParseAction(c: Call, canon: Fields, who: string) returns (p: Parsed, a: Answer)
      requires Valid()
      modifies this, grants, grants.executions
      ensures SameCall() && p == Parse(canon)
      ensures p.Asked? ==> a == Proceed && View() == old(View()) && grants.items == old(grants.items)
      ensures p.Malformed? ==> Follows(a, c, Some(Denial([p.rule], canon, Some(who))))
    {
      p := Parse(canon);
      a := Proceed;
      if p.Malformed? {
        var d := Denied(c, [p.rule], canon, Some(who), None);
        a := Reached(d);
      }
    }

    /** _escalate without an existing id. The request is parsed a second time; since every caller has parsed it
        already, that cannot fail and nothing is recorded twice. */
    method EscalateFresh(c: Call, canon: Fields, who: string, rules: seq<string>, reason: Grants.ReasonClass,
                         cap: Option<Capability>, frame: Option<Check>, prov: Provenance) returns (a: Answer)
      requires Valid() && Parse(canon).Asked? && c.newGrantId !in grants.items
      modifies this, escalations, grants, grants.executions
      ensures SameCall()
      ensures Follows(a, c, EscalateNew(k, old(View()), c, canon, who, Parse(canon), rules, reason, cap, frame, prov))
    {
      var p, again := ParseAction(c, canon, who);
      var refused := FileEscalation(c, canon, who, p, reason, cap, prov);
      if refused { return Raised; }
      var d := Finish(c, Escalate, rules + ["escalate.created"], canon, Some(who), None, Some(c.newId), None, frame);
      ghost var r := EscalateNew(k, old(View()), c, canon, who, p, rules, reason, cap, frame, prov).value;
      ConcludeByFinish(k, old(View()), c, r, inFlight);
      return Reached(d);
    }

    /** The record and the grant of a new escalation; true where creating the record raises. */
    method FileEscalation(c: Call, canon: Fields, who: string, p: Parsed, reason: Grants.ReasonClass, cap: Option<Capability>,
                          prov: Provenance) returns (refused: bool)
      requires Valid() && p.Asked? && c.newGrantId !in grants.items
      modifies escalations, grants
      ensures Valid()
      ensures refused <==> c.newId in old(escalations.items)
      ensures refused ==> View() == old(View())
      ensures !refused ==> View() == Apply(old(View()), NewEscalation(k, old(View()), c, canon, who, p, reason, cap, prov), c.now)
    {
      var error := escalations.Create(c.newId, k.TextOr(Get(canon, "request_id")), who, k.PayloadHash(canon), reason);
      if error.Some? { return true; }
      var terms := TermsOf(k, policy, canon, who, p, cap, prov.Identity());
      grants.CreatePendingContext(c.newGrantId, c.newId, terms, reason, c.now);
      return false;
    }

    /** The helper did what this ruling concludes to; it raised, changing nothing, when there is none. */
    twostate predicate Follows(a: Answer, c: Call, r: Option<Ruling>)
      requires old(Valid()) && Valid()
      reads this, escalations, grants, grants.executions, evidence, observations
    {
      if r.None? then a == Raised && View() == old(View())
      else a.Reached? && (View(), a.decision) == Conclude(k, old(View()), c, r.value, inFlight)
    }

    method PermitWith(c: Call, canon: Fields, who: string, rules: seq<string>, prov: Provenance, id: Option<string>, frame: Check)
      returns (d: Decision)
      requires Valid() && prov.Matches?
      modifies this, grants, grants.executions
      ensures SameCall()
      ensures (View(), d) == Kernel.Finish(k, old(View()), c, Permission(canon, who, rules, prov, id, frame, Nothing), inFlight)
    {
      var grant := GrantNote(Get(canon, "request_id"), who, Get(canon, "action_type"), Get(canon, "domain"), Get(canon, "risk_level"));
      var all := rules + (if prov.drift then ["provenance.head_drift_diagnostic"] else []) + ["provenance.ok"];
      d := Finish(c, Permit, all, canon, Some(who), Some(grant), id, None, Some(frame));
    }

    // -------------------------------------------------------------- evaluate

    /** _permit_if_provenance, as evaluate uses it. */
    method PermitIfProvenance(c: Call, canon: Fields, who: string, rule: string, cap: Option<Capability>, check: Check) returns (a: Answer)
      requires Valid() && Parse(canon).Asked? && c.newGrantId !in grants.items && check.decision == Allow
      modifies this, escalations, grants, grants.executions
      ensures SameCall()
      ensures Follows(a, c, EvaluateBy(k, old(View()), c, canon, who, rule, Parse(canon), cap, check))
    {
      var rules := [rule] + check.rules;
      if c.provenance.Matches? {
        var d := PermitWith(c, canon, who, rules, c.provenance, None, check);
        return Reached(d);
      }
      if c.provenance.Mismatches? {
        var d := Denied(c, rules + ["provenance.mismatch"], canon, Some(who), Some(check));
        return Reached(d);
      }
      a := EscalateFresh(c, canon, who, rules + ["provenance.unavailable"], Grants.ProvenanceReason, cap, Some(check), c.provenanceAgain);
    }

    method EvaluateChecked(c: Call, canon: Fields, who: string, rule: string, cap: Option<Capability>, check: Check) returns (a: Answer)
      requires Valid() && Parse(canon).Asked? && c.newGrantId !in grants.items
      modifies this, escalations, grants, grants.executions
      ensures SameCall()
      ensures Follows(a, c, EvaluateBy(k, old(View()), c, canon, who, rule, Parse(canon), cap, check))
    {
      var rules := [rule] + check.rules;
      if check.decision == Refuse {
        var d := Denied(c, rules, canon, Some(who), Some(check));
        return Reached(d);
      }
      if check.decision == OwnerMandatory {
        var reason := if "authz.owner_mandatory_action" in check.rules then Grants.MandatoryAction else Grants.MandatoryRisk;
        a := EscalateFresh(c, canon, who, rules, reason, cap, Some(check), c.provenance);
        return;
      }
      a := PermitIfProvenance(c, canon, who, rule, cap, check);
    }

    /** ruling is what module Kernel rules on this call. */
    method EvaluateAuthenticated(c: Call, canon: Fields, who: string, rule: string, ghost ruling: Option<Ruling>) returns (a: Answer)
      requires Valid() && c.newGrantId !in grants.items && ruling == JudgeEvaluate(k, View(), c, canon, who, rule)
      modifies this, escalations, grants, grants.executions
      ensures SameCall()
      ensures Follows(a, c, ruling)
    {
      var p, malformed := ParseAction(c, canon, who);
      if malformed.Reached? { return malformed; }
      if policy.None? || policy.value.BlocksPermit(k.sha) {
        a := EscalateFresh(c, canon, who, ["evaluate", "policy.blocks_permit"], Grants.PolicyReason, None, None, c.provenance);
        return;
      }
      var cap, check := StrongestForEvaluate(c, who, p);
      a := EvaluateChecked(c, canon, who, rule, cap, check);
    }

    method StrongestForEvaluate(c: Call, who: string, p: Parsed) returns (cap: Option<Capability>, check: Check)
      requires p.Asked?
      ensures cap == EvaluateCapability(k, c, who, p)
      ensures check == CheckCapability(cap, AskOf(who, p), false, SituationOf(k, c))
    {
      check, cap := EvaluateLoop(Candidates(c.caps, who, c.now), DeciderFor(AskOf(who, p), SituationOf(k, c)));
    }

    // -------------------------------------------------------------- reenter

    method ReenterCapabilityNow(c: Call, who: string, p: Parsed, id: string) returns (cap: Option<Capability>, grant: Option<Grants.Grant>)
      requires Valid() && p.Asked?
      ensures cap == ReenterCapability(k, View(), c, who, p, id) && grant == GrantFor(View(), id)
    {
      grant := grants.GetByEscalation(id);
      if grant.Some? && grant.value.terms.capability != "" {
        cap := Registry.GetCap(c.caps, grant.value.terms.capability);
      } else {
        cap := ReenterLoop(Candidates(c.caps, who, c.now), DeciderFor(AskOf(who, p), SituationOf(k, c)));
      }
    }

    /** From the live provenance check to the redemption and the PERMIT. */
    method Redeem(c: Call, canon: Fields, who: string, rules: seq<string>, id: string, cap: Option<Capability>, check: Check)
      returns (d: Decision)
      requires Valid() && Parse(canon).Asked? && c.provenance.Matches?
      modifies this, escalations, grants, grants.executions
      ensures SameCall()
      ensures (View(), d) == Conclude(k, old(View()), c,
                RedemptionRuling(k, old(View()), c, canon, who, rules, Parse(canon), id, cap, check), inFlight)
    {
      ghost var s := View();
      ghost var ruling := RedemptionRuling(k, s, c, canon, who, rules, Parse(canon), id, cap, check);
      var terms := TermsOf(k, policy, canon, who, Parse(canon), cap, c.provenance.identity);
      var refused := grants.ConsumeIfValid(id, terms, c.now);
      if refused.Some? {
        assert View() == s && ruling == DenialOf(rules + ["grant.rejected"], canon, who, id, Some(check));
        d := DeniedOf(c, rules + ["grant.rejected"], canon, who, id, Some(check));
      } else {
        assert View() == Apply(s, Redeems(id), c.now);
        assert ruling == Permission(canon, who, rules, c.provenance, Some(id), check, Redeems(id));
        d := PermitAndResolve(c, canon, who, rules, id, check, s);
      }
    }

    method PermitAndResolve(c: Call, canon: Fields, who: string, rules: seq<string>, id: string, check: Check, ghost before: State)
      returns (d: Decision)
      requires Valid() && c.provenance.Matches? && View() == Apply(before, Redeems(id), c.now)
      modifies this, escalations, grants, grants.executions
      ensures SameCall()
      ensures (View(), d) == Conclude(k, before, c, Permission(canon, who, rules, c.provenance, Some(id), check, Redeems(id)), inFlight)
    {
      d := PermitWith(c, canon, who, rules, c.provenance, Some(id), check);
      ghost var r := Permission(canon, who, rules, c.provenance, Some(id), check, Redeems(id));
      ConcludeRedemption(k, before, c, r, View(), d, inFlight);
      if d.verdict == Permit {
        var error := escalations.MediatorResolve(id);
      }
    }

    method ReenterChecked(c: Call, canon: Fields, who: string, rule: string, id: string, cap: Option<Capability>, check: Check)
      returns (d: Decision)
      requires Valid() && Parse(canon).Asked?
      modifies this, escalations, grants, grants.executions
      ensures SameCall()
      ensures (View(), d) == Conclude(k, old(View()), c,
                ReenterBy(k, old(View()), c, canon, who, rule, Parse(canon), id, cap, check), inFlight)
    {
      var rules := [rule, "reentry.escalation_matched"] + check.rules;
      if check.decision != Allow {
        d := DeniedOf(c, rules, canon, who, id, Some(check));
      } else if c.provenance.Mismatches? {
        d := DeniedOf(c, rules + ["provenance.mismatch"], canon, who, id, Some(check));
      } else if c.provenance.Matches? {
        d := Redeem(c, canon, who, rules, id, cap, check);
      } else {
        d := Finish(c, Escalate, rules + ["provenance.unavailable"], canon, Some(who), None, Some(id), None, Some(check));
      }
    }

    method ReenterDecided(c: Call, canon: Fields, who: string, rule: string, id: string) returns (d: Decision)
      requires Valid()
      modifies this, escalations, grants, grants.executions
      ensures SameCall()
      ensures (View(), d) == Conclude(k, old(View()), c, ReenterOn(k, old(View()), c, canon, who, rule, id), inFlight)
    {
      var p, malformed := ParseAction(c, canon, who);
      if malformed.Reached? { return malformed.decision; }
      if policy.None? || policy.value.BlocksPermit(k.sha) {
        var rules := ["reentry", rule, "policy.blocks_permit"] + ["escalate.created"];
        d := Finish(c, Escalate, rules, canon, Some(who), None, Some(id), None, None);
        return;
      }
      var cap, check := LiveCheck(c, who, p, id);
      d := ReenterChecked(c, canon, who, rule, id, cap, check);
    }

    /** The capability check against the live registry, with the Owner's permit taken into account. */
    method LiveCheck(c: Call, who: string, p: Parsed, id: string) returns (cap: Option<Capability>, check: Check)
      requires Valid() && p.Asked?
      ensures cap == ReenterCapability(k, View(), c, who, p, id)
      ensures check == CheckCapability(cap, AskOf(who, p), Skips(GrantFor(View(), id), p), SituationOf(k, c))
    {
      var grant: Option<Grants.Grant>;
      cap, grant := ReenterCapabilityNow(c, who, p, id);
      var skip := false;
      if grant.Some? && grant.value.ownerDecision == "permit" && !grant.value.consumed {
        if grant.value.reason == Grants.MandatoryAction && grant.value.terms.action == p.action {
          skip := true;
        } else if grant.value.reason == Grants.MandatoryRisk && grant.value.terms.risk == p.risk {
          skip := true;
        }
      }
      check := CheckCapability(cap, AskOf(who, p), skip, SituationOf(k, c));
    }

    method ReenterAuthenticated(c: Call, canon: Fields, who: string, rule: string) returns (d: Decision)
      requires Valid()
      modifies this, escalations, grants, grants.executions
      ensures SameCall()
      ensures (View(), d) == Conclude(k, old(View()), c, JudgeReenter(k, old(View()), c, canon, who, rule), inFlight)
    {
      var given := Get(canon, "escalation_id");
      if !given.Truthy() {
        d := Denied(c, ["reentry.missing_id"], canon, Some(who), None);
        return;
      }
      var id := k.str(given);
      var record := escalations.Lookup(id);
      if record.None? {
        d := Denied(c, ["reentry.not_found"], canon, Some(who), None);
        return;
      }
      var refused := RecordRefusal(record.value, who);
      if refused.Some? {
        d := DeniedOf(c, [refused.value], canon, who, id, None);
        return;
      }
      d := ReenterDecided(c, canon, who, rule, id);
    }

    // -------------------------------------------------------------- the Owner's calls

    method DecideAuthenticated(c: Call, canon: Fields, who: string, rule: string) returns (d: Decision)
      requires Valid()
      modifies this, escalations, grants, grants.executions
      ensures SameCall()
      ensures (View(), d) == Conclude(k, old(View()), c, JudgeDecide(k, old(View()), c, canon, who, rule), inFlight)
    {
      if who != OWNER {
        d := Denied(c, ["decide.not_owner"], canon, Some(who), None);
        return;
      }
      var cap := SelectCapability(c.caps, who, RDec, c.now);
      if cap.None? || cap.value.role != RDec || !cap.value.Active(c.now) {
        d := Denied(c, ["decide.not_authorized"], canon, Some(who), None);
        return;
      }
      var decision := Get(canon, "owner_decision");
      if decision != JStr("permit") && decision != JStr("deny") {
        d := Denied(c, ["decide.invalid_value"], canon, Some(who), None);
        return;
      }
      d := RecordDecision(c, canon, who, rule, k.str(Get(canon, "escalation_id")), decision.s);
    }

    method RecordDecision(c: Call, canon: Fields, who: string, rule: string, id: string, decision: string) returns (d: Decision)
      requires Valid() && Escalations.IsDecision(decision)
      modifies this, escalations, grants, grants.executions
      ensures SameCall()
      ensures (View(), d) == Conclude(k, old(View()), c, DecisionRuling(old(View()), canon, who, rule, id, decision), inFlight)
    {
      var refused := escalations.MediatorDecide(id, decision, who);
      if refused.Some? {
        d := Denied(c, ["decide.rejected"], canon, Some(who), None);
        return;
      }
      grants.AttachOwnerDecision(id, decision);
      assert View() == Apply(old(View()), Decides(id, decision, who), c.now);
      d := Finish(c, Deny, [rule, "decide.recorded"], canon, Some(who), None, Some(id), Some(decision), None);
      ConcludeByFinish(k, old(View()), c, DecisionRuling(old(View()), canon, who, rule, id, decision), inFlight);
    }

    method UpdatePolicyAuthenticated(c: Call, canon: Fields, who: string, rule: string) returns (d: Decision)
      requires Valid()
      modifies this, grants, grants.executions
      ensures SameCall()
      ensures (View(), d) == Conclude(k, old(View()), c, JudgeUpdatePolicy(k, c, canon, who, rule), inFlight)
    {
      if who != OWNER {
        d := Denied(c, ["policy.update_not_owner"], canon, Some(who), None);
        return;
      }
      var cap := SelectCapability(c.caps, who, RDec, c.now);
      if cap.None? || cap.value.role != RDec || !cap.value.Active(c.now) {
        d := Denied(c, ["policy.update_not_authorized"], canon, Some(who), None);
        return;
      }
      d := InstallPolicy(c, canon, who, rule);
    }

    method InstallPolicy(c: Call, canon: Fields, who: string, rule: string) returns (d: Decision)
      requires Valid()
      modifies this, grants, grants.executions
      ensures SameCall()
      ensures (View(), d) == Conclude(k, old(View()), c, PolicyRuling(k, canon, who, rule), inFlight)
    {
      var version, body := Get(canon, "policy_version"), Get(canon, "policy_body");
      if !version.NonEmptyString() || !body.JObj? {
        d := Denied(c, ["policy.update_bad_request"], canon, Some(who), None);
        return;
      }
      var proposed := FromBody(k.sha, version.s, body.fields);
      if proposed.BlocksPermit(k.sha) {
        d := Denied(c, ["policy.update_rejected"], canon, Some(who), None);
        return;
      }
      policy := Some(proposed);
      assert View() == Apply(old(View()), Installs(proposed), c.now);
      d := Finish(c, Deny, [rule, "policy.updated"], canon, Some(who), None, None, None, None);
    }

    // -------------------------------------------------------------- evidence

    method CreateEvidenceAuthenticated(c: Call, canon: Fields, who: string, rule: string) returns (d: Decision)
      requires Valid()
      modifies this, grants, grants.executions, evidence
      ensures SameCall()
      ensures (View(), d) == Conclude(k, old(View()), c, JudgeCreateEvidence(k, old(View()), canon, who, rule), inFlight)
    {
      var id := Get(canon, "evidence_id");
      if !id.Truthy() {
        d := Denied(c, ["evidence.bad_request"], canon, Some(who), None);
        return;
      }
      ghost var op := Evidence.Create(k.str(id), who, Get(canon, "content"));
      var outcome := evidence.CreateCandidate(k.str(id), who, Get(canon, "content"), c.now);
      d := EvidenceFinish(c, canon, who, outcome, [rule, "evidence.candidate"], "evidence.create_rejected", old(View()), op);
    }

    method VerifyEvidenceAuthenticated(c: Call, canon: Fields, who: string, rule: string) returns (d: Decision)
      requires Valid()
      modifies this, grants, grants.executions, evidence
      ensures SameCall()
      ensures (View(), d) == Conclude(k, old(View()), c, JudgeVerifyEvidence(k, old(View()), c, canon, who, rule), inFlight)
    {
      var cap := SelectCapability(c.caps, who, RIv, c.now);
      if cap.None? || !cap.value.Active(c.now) {
        d := Denied(c, ["evidence.no_capability"], canon, Some(who), None);
        return;
      }
      var id, result := Get(canon, "evidence_id"), Get(canon, "verification_result");
      if !id.Truthy() {
        d := Denied(c, ["evidence.bad_request"], canon, Some(who), None);
        return;
      }
      ghost var op := Evidence.Op.Verify(k.str(id), who, cap.value.role, result);
      var outcome := evidence.VerifyEvidence(k.str(id), who, cap.value.role, result, c.now);
      var accepted := [rule, if result == JBool(true) then "evidence.verified" else "evidence.verification_failed"];
      d := EvidenceFinish(c, canon, who, outcome, accepted, "evidence.verify_rejected", old(View()), op);
    }

    method AuthorizeEvidenceAuthenticated(c: Call, canon: Fields, who: string, rule: string) returns (d: Decision)
      requires Valid()
      modifies this, grants, grants.executions, evidence
      ensures SameCall()
      ensures (View(), d) == Conclude(k, old(View()), c, JudgeAuthorizeEvidence(k, old(View()), c, canon, who, rule), inFlight)
    {
      var cap := SelectCapability(c.caps, who, RDec, c.now);
      if cap.None? || !cap.value.Active(c.now) {
        d := Denied(c, ["evidence.no_capability"], canon, Some(who), None);
        return;
      }
      var id, result := Get(canon, "evidence_id"), Get(canon, "authorization_result");
      if !id.Truthy() {
        d := Denied(c, ["evidence.bad_request"], canon, Some(who), None);
        return;
      }
      ghost var op := Evidence.Authorize(k.str(id), who, cap.value.role, result);
      var outcome := evidence.AuthorizeEvidence(k.str(id), who, cap.value.role, result, c.now);
      var accepted := [rule, if result == JBool(true) then "evidence.authorized" else "evidence.authorization_failed"];
      d := EvidenceFinish(c, canon, who, outcome, accepted, "evidence.authorize_rejected", old(View()), op);
    }

    /** Every evidence operation ends in a denial: evidence is not authority. */
    method EvidenceFinish(c: Call, canon: Fields, who: string, outcome: Evidence.Outcome, accepted: seq<string>, rejected: string,
                          ghost before: State, ghost op: Evidence.Op) returns (d: Decision)
      requires Valid() && View() == before.(evidence := Evidence.After(before.evidence, op, c.now))
      requires outcome.Refused? <==> Evidence.Refuse(before.evidence.current, op).Some?
      modifies this, grants, grants.executions
      ensures SameCall()
      ensures (View(), d) == Conclude(k, before, c, EvidenceRuling(before, canon, who, op, accepted, rejected), inFlight)
    {
      if outcome.Refused? {
        d := Finish(c, Deny, [rejected], canon, Some(who), None, None, None, None);
      } else {
        d := Finish(c, Deny, accepted, canon, Some(who), None, None, None, None);
      }
    }

    // -------------------------------------------------------------- the gate

    method Observe(canon: Fields, who: string) returns (number: Option<nat>)
      requires Valid()
      modifies observations
      ensures Valid() && (View(), number) == Kernel.Observe(k, old(View()), canon, who)
    {
      if observations == null { return None; }
      number := observations.Record(who, Get(canon, "request_id"), k.PayloadHash(canon));
    }

    /** Dispatch to the operation. */
    method Then(c: Call, canon: Fields, who: string, rule: string, ghost ruling: Option<Ruling>) returns (a: Answer)
      requires Valid() && c.newGrantId !in grants.items && ruling == Judge(k, View(), c, canon, who, rule)
      modifies this, escalations, grants, grants.executions, evidence
      ensures SameCall()
      ensures Follows(a, c, ruling)
    {
      var d: Decision;
      match c.op {
        case Evaluate =>
          a := EvaluateAuthenticated(c, canon, who, rule, ruling);
          return;
        case Reenter => d := ReenterAuthenticated(c, canon, who, rule);
        case Decide => d := DecideAuthenticated(c, canon, who, rule);
        case CreateEvidence => d := CreateEvidenceAuthenticated(c, canon, who, rule);
        case VerifyEvidence => d := VerifyEvidenceAuthenticated(c, canon, who, rule);
        case AuthorizeEvidence => d := AuthorizeEvidenceAuthenticated(c, canon, who, rule);
        case UpdatePolicy => d := UpdatePolicyAuthenticated(c, canon, who, rule);
      }
      a := Reached(d);
    }

    /** _gated: canonicalise, authenticate, observe, dispatch. Grant ids are fresh, as UUIDs are. */
    method Gated(c: Call) returns (d: Decision)
      requires Valid() && c.newGrantId !in grants.items
      modifies this, escalations, grants, grants.executions, evidence, observations
      ensures Valid() && (View(), d) == Kernel.Gated(k, old(View()), c)
    {
      inFlight := None;
      var early := DeniedEarly(c);
      if early.Reached? { return early.decision; }
      inFlight := Observe(c.snapshot.value, c.authn.principal.value);
      d := Dispatch(c);
    }

    /** The denials reached before an identity exists. */
    method DeniedEarly(c: Call) returns (a: Answer)
      requires Valid()
      modifies this, grants, grants.executions
      ensures SameCall()
      ensures Authentic(c) ==> a == Proceed && View() == old(View()) && grants.items == old(grants.items)
      ensures !Authentic(c) ==> Follows(a, c, EarlyRuling(c))
    {
      var d: Decision;
      if !c.available {
        d := Denied(c, ["mediator.unavailable"], map[], None, None);
      } else if c.snapshot.None? {
        d := Denied(c, ["canon.failed"], map[], None, None);
      } else if c.authn.AuthnRaises? {
        d := Denied(c, ["authn.error"], c.snapshot.value, None, None);
      } else if !c.authn.ok || c.authn.principal.None? {
        d := Denied(c, [c.authn.rule], c.snapshot.value, c.authn.principal, None);
      } else {
        return Proceed;
      }
      return Reached(d);
    }

    method Dispatch(c: Call) returns (d: Decision)
      requires Valid() && c.newGrantId !in grants.items && Authentic(c)
      modifies this, escalations, grants, grants.executions, evidence
      ensures Valid() && (View(), d) == Conclude(k, old(View()), c, RulingOf(k, old(View()), c), old(inFlight))
    {
      var canon, who := c.snapshot.value, c.authn.principal.value;
      ghost var ruling := Judge(k, View(), c, canon, who, c.authn.rule);
      var a := Then(c, canon, who, c.authn.rule, ruling);
      if a.Raised? {
        d := Denied(c, [c.op.Name() + ".error"], canon, Some(who), None);
      } else {
        d := a.decision;
      }
    }
  }
}
