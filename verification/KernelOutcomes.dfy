/** What a call that is not permitted answers, and what it leaves behind: DENY and ESCALATE told apart by the request,
    the registry, the policy and the provenance alone. */
module KernelOutcomes {
  import opened Domain
  import opened JsonValues
  import opened Authorization
  import opened Kernel
  import opened Rulings
  import opened KernelSteps
  import opened KernelOrigin
  import opened KernelExact
  import Registry
  import Grants
  import Escalations
  import ExecutionLogs

  // ---------------------------------------------------------------- what recording makes of a ruling

  /** The decision the caller gets, for every way in which recording it can end. */
  predicate Told(c: Call, r: Ruling, d: Decision) {
    if !c.recordBuilds then
      d.verdict == Deny && d.rules == r.rules + ["record.build_failed"] && d.auditHash.None? && d.ownerDecision == r.ownerDecision
    else if c.append.AppendRaises? then
      && d.verdict == (if r.verdict == Escalate then Escalate else Deny)
      && d.rules == r.rules + ["audit.write_failed"] && d.auditHash.None? && d.ownerDecision == r.ownerDecision
    else if r.verdict == Permit && c.append.hash == "" then
      d.verdict == Deny && d.rules == r.rules + ["audit.hash_missing"] && d.auditHash.None?
    else
      && d.verdict == r.verdict && d.rules == r.rules && d.auditHash == Some(c.append.hash) && d.ownerDecision == r.ownerDecision
  }

  lemma RecordTold(k: Config, s: State, c: Call, r: Ruling, observation: Option<nat>)
    requires Settled(r) == r
    ensures Told(c, r, Conclude(k, s, c, r, observation).1)
  {
  }

  lemma DecisionTold(k: Config, s: State, c: Call)
    ensures Told(c, Ruled(k, s, c), Gated(k, s, c).1)
  {
    LawfulIsSettled(k, s, c);
    RecordTold(k, Seen(k, s, c), c, Ruled(k, s, c), Noticed(k, s, c).1);
  }

  /** Both stores of escalations are as they were. */
  predicate StoresKept(s: State, t: State) {
    t.escalations == s.escalations && t.grants == s.grants
  }

  // ---------------------------------------------------------------- evaluate: which check decides

  /** The caller has a registered capability in force. */
  ghost predicate HoldsAny(c: Call) {
    Authentic(c) && exists cap :: cap in c.caps && InForce(cap, Who(c), c.now)
  }

  /** A non-owner's COMMIT or HIGH under a capability in force, with a context when one is required. */
  ghost predicate AsksOwner(k: Config, c: Call) {
    NeedsOwner(c) && HoldsAny(c) && (k.requireContext ==> c.context.Some? && c.context.value.principal != "")
  }

  /** The request needs no Owner, and a registered capability -- and the bound mandate, if required -- covers it. */
  ghost predicate Covered(k: Config, c: Call) {
    && Authentic(c) && Parse(Canon(c)).Asked? && !NeedsOwner(c)
    && (exists cap :: cap in c.caps && Covers(cap, Asks(c), c.now))
    && (k.requireContext ==> ContextCovers(Asks(c), SituationOf(k, c)))
  }

  /** The check that evaluate's loop settles on. */
  function BestCheck(k: Config, c: Call): Check
    requires Authentic(c) && Parse(Canon(c)).Asked?
  {
    CheckCapability(EvaluateCapability(k, c, Who(c), Parse(Canon(c))), Asks(c), false, SituationOf(k, c))
  }

  lemma CoveredExactlyWhenAllowed(k: Config, c: Call)
    requires Authentic(c) && Parse(Canon(c)).Asked?
    ensures BestCheck(k, c).decision == Allow <==> Covered(k, c)
  {
    BestAllowsExactlyWhenSomeDoes(k, c, Who(c), Parse(Canon(c)));
    AllowedLiveMeans(k, c, Asks(c));
    MandateCoversMeans(Asks(c), SituationOf(k, c));
  }

  lemma FirstActive(caps: seq<Capability>, who: string, now: int)
    ensures (exists cap :: cap in caps && InForce(cap, who, now)) <==> Registry.ActiveFor(caps, who, now) != []
    ensures forall cap | cap in Registry.ActiveFor(caps, who, now) :: cap in caps && InForce(cap, who, now)
  {
    var active := Registry.ActiveFor(caps, who, now);
    forall cap | cap in active ensures cap in caps && InForce(cap, who, now) {
      Registry.LookupsComeFromTheRegistry(caps, who, now, cap);
    }
    if active != [] { assert active[0] in active; }
    if cap :| cap in caps && InForce(cap, who, now) {
      Registry.LookupsComeFromTheRegistry(caps, who, now, cap);
    }
  }

  /** A request that needs the Owner is mandatory under every active capability, and the first of them is chosen. */
  lemma MandatoryChoice(k: Config, c: Call)
    requires AsksOwner(k, c)
    ensures BestCheck(k, c).decision == OwnerMandatory
    ensures Registry.ActiveFor(c.caps, Who(c), c.now) != []
    ensures EvaluateCapability(k, c, Who(c), Parse(Canon(c))) == Some(Registry.ActiveFor(c.caps, Who(c), c.now)[0])
  {
    FirstActive(c.caps, Who(c), c.now);
    var active := Registry.ActiveFor(c.caps, Who(c), c.now);
    var caps, decide := Candidates(c.caps, Who(c), c.now), DeciderFor(Asks(c), SituationOf(k, c));
    forall i | 0 <= i < |caps| ensures decide(caps[i]).decision == OwnerMandatory {
      assert caps[i] == Some(active[i]);
      OwnerMandatoryExactlyWhen(caps[i], Asks(c), false, SituationOf(k, c));
    }
    FirstOfAll(Dispositions(caps, decide));
  }

  lemma FirstOfAll(ds: seq<Disposition>)
    requires ds != [] && forall i | 0 <= i < |ds| :: ds[i] == OwnerMandatory
    ensures EvaluateChoice(ds) == 0
  {
    assert FirstFrom(ds, OwnerMandatory, 0) == Some(0);
  }

  lemma MandatoryExactlyWhen(k: Config, c: Call)
    requires Authentic(c) && Parse(Canon(c)).Asked?
    ensures BestCheck(k, c).decision == OwnerMandatory <==> AsksOwner(k, c)
  {
    var cap := EvaluateCapability(k, c, Who(c), Parse(Canon(c)));
    if BestCheck(k, c).decision == OwnerMandatory {
      OwnerMandatoryExactlyWhen(cap, Asks(c), false, SituationOf(k, c));
      EvaluateCapabilityRegistered(k, c, Who(c), Parse(Canon(c)));
      assert cap.value in c.caps && InForce(cap.value, Who(c), c.now);
    }
    if AsksOwner(k, c) { MandatoryChoice(k, c); }
  }

  // ---------------------------------------------------------------- evaluate: when it escalates, and what it files

  /** The checker raised or could not tell. */
  predicate Unestablished(prov: Provenance) {
    prov.CheckRaises? || prov.Unavailable?
  }

  /** Exactly when evaluate files an escalation. */
  ghost predicate Files(k: Config, s: State, c: Call) {
    && Authentic(c) && Parse(Canon(c)).Asked? && c.newId !in s.escalations
    && (PolicyBlocks(k, s.policy) || AsksOwner(k, c) || (Covered(k, c) && Unestablished(c.provenance)))
  }

  /** Why it does: the policy first, then the Owner's reservation, then the provenance. */
  function ReasonFor(k: Config, s: State, c: Call): Grants.ReasonClass
    requires Authentic(c) && Parse(Canon(c)).Asked?
  {
    if PolicyBlocks(k, s.policy) then Grants.PolicyReason
    else if !NeedsOwner(c) then Grants.ProvenanceReason
    else if Parse(Canon(c)).action == Commit then Grants.MandatoryAction
    else Grants.MandatoryRisk
  }

  /** The capability the grant is bound to: none when the policy blocks. */
  function CapabilityFor(k: Config, s: State, c: Call): Option<Capability>
    requires Authentic(c) && Parse(Canon(c)).Asked?
  {
    if PolicyBlocks(k, s.policy) then None else EvaluateCapability(k, c, Who(c), Parse(Canon(c)))
  }

  /** The provenance answer the grant is bound to: a fresh one when the first could not be established. */
  function ProvenanceFor(k: Config, s: State, c: Call): Provenance
    requires Authentic(c) && Parse(Canon(c)).Asked?
  {
    if PolicyBlocks(k, s.policy) || NeedsOwner(c) then c.provenance else c.provenanceAgain
  }

  /** The escalation record, field by field. */
  function RecordFor(k: Config, c: Call, reason: Grants.ReasonClass): Escalations.Escalation
    requires Authentic(c)
  {
    Escalations.Escalation(c.newId, TextField(k, c, "request_id"), Who(c), ContentHash(k, c), reason, Escalations.Pending, None, None)
  }

  /** The grant, field by field. */
  function GrantAs(k: Config, s: State, c: Call, reason: Grants.ReasonClass, cap: Option<Capability>, prov: Provenance): Grants.Grant
    requires Authentic(c) && Parse(Canon(c)).Asked?
  {
    var p := Parse(Canon(c));
    Grants.Grant(c.newId,
                 Grants.Terms(Who(c), TextField(k, c, "agent_id"), TextField(k, c, "request_id"), p.action, p.domain, p.risk,
                              ContentHash(k, c),
                              if cap.None? then "" else cap.value.id, if cap.None? then "" else k.scope(cap.value),
                              if s.policy.None? then "" else s.policy.value.hash,
                              if prov.CheckRaises? then "" else prov.identity),
                 reason, "", c.now + k.grantTtl, false)
  }

  lemma NewEscalationIs(k: Config, s: State, c: Call, p: Parsed, rules: seq<string>, reason: Grants.ReasonClass,
                        cap: Option<Capability>, frame: Option<Check>, prov: Provenance)
    requires Authentic(c) && p == Parse(Canon(c)) && p.Asked?
    ensures var r := EscalateNew(k, s, c, Canon(c), Who(c), p, rules, reason, cap, frame, prov);
            if c.newId in s.escalations then r.None?
            else
              && r.Some? && r.value.verdict == Escalate && r.value.escalation == Some(c.newId)
              && r.value.effect == Escalates(RecordFor(k, c, reason), GrantAs(k, s, c, reason, cap, prov))
  {
  }

  predicate FilesAs(k: Config, s: State, c: Call, r: Ruling)
    requires Authentic(c) && Parse(Canon(c)).Asked?
  {
    && r.verdict == Escalate && r.escalation == Some(c.newId)
    && r.effect == Escalates(RecordFor(k, c, ReasonFor(k, s, c)),
                             GrantAs(k, s, c, ReasonFor(k, s, c), CapabilityFor(k, s, c), ProvenanceFor(k, s, c)))
  }

  lemma EvaluateByCases(k: Config, s: State, c: Call, canon: Fields, who: string, rule: string, p: Parsed, cap: Option<Capability>,
                        check: Check)
    requires p.Asked?
    ensures var r, rules := EvaluateBy(k, s, c, canon, who, rule, p, cap, check), [rule] + check.rules;
            && (check.decision == OwnerMandatory ==>
                  r == EscalateNew(k, s, c, canon, who, p, rules, ReasonOf(check), cap, Some(check), c.provenance))
            && (check.decision == Allow && Unestablished(c.provenance) ==>
                  r == EscalateNew(k, s, c, canon, who, p, rules + ["provenance.unavailable"], Grants.ProvenanceReason, cap,
                                   Some(check), c.provenanceAgain))
            && (check.decision != OwnerMandatory && !(check.decision == Allow && Unestablished(c.provenance)) ==>
                  r.Some? && r.value.verdict != Escalate && r.value.effect == Nothing)
  {
  }

  lemma ReasonIs(cap: Option<Capability>, ask: Ask, s: Situation)
    requires CheckCapability(cap, ask, false, s).decision == OwnerMandatory
    ensures ReasonOf(CheckCapability(cap, ask, false, s)) == if ask.action == Commit then Grants.MandatoryAction else Grants.MandatoryRisk
  {
    MandatoryReasonTold(cap, ask, false, s);
  }

  /** What evaluate does with the strongest check. */
  lemma EvaluateByRules(k: Config, s: State, c: Call, p: Parsed)
    requires Authentic(c) && p == Parse(Canon(c)) && p.Asked? && !PolicyBlocks(k, s.policy)
    ensures var r := EvaluateBy(k, s, c, Canon(c), Who(c), c.authn.rule, p, EvaluateCapability(k, c, Who(c), p), BestCheck(k, c));
            if Files(k, s, c) then r.Some? && FilesAs(k, s, c, r.value)
            else r.Some? ==> r.value.verdict != Escalate && r.value.effect == Nothing
  {
    var cap, check := EvaluateCapability(k, c, Who(c), p), BestCheck(k, c);
    var rules := [c.authn.rule] + check.rules;
    CoveredExactlyWhenAllowed(k, c);
    MandatoryExactlyWhen(k, c);
    EvaluateByCases(k, s, c, Canon(c), Who(c), c.authn.rule, p, cap, check);
    if check.decision == OwnerMandatory {
      ReasonIs(cap, Asks(c), SituationOf(k, c));
      NewEscalationIs(k, s, c, p, rules, ReasonOf(check), cap, Some(check), c.provenance);
    } else if check.decision == Allow && Unestablished(c.provenance) {
      NewEscalationIs(k, s, c, p, rules + ["provenance.unavailable"], Grants.ProvenanceReason, cap, Some(check), c.provenanceAgain);
    }
  }

  lemma EvaluateRules(k: Config, s: State, c: Call)
    requires Authentic(c) && c.op == Evaluate
    ensures var r := TheRuling(k, s, c);
            if Files(k, s, c) then FilesAs(k, s, c, r) else r.verdict != Escalate && r.effect == Nothing
  {
    var p := Parse(Canon(c));
    if p.Asked? {
      if PolicyBlocks(k, s.policy) {
        NewEscalationIs(k, s, c, p, ["evaluate", "policy.blocks_permit"], Grants.PolicyReason, None, None, c.provenance);
      } else {
        EvaluateByRules(k, s, c, p);
      }
    }
  }
  lemma RuledFiles(k: Config, s: State, c: Call)
    requires c.op == Evaluate
    ensures if Files(k, s, c) then FilesAs(k, s, c, Ruled(k, s, c))
            else Ruled(k, s, c).verdict != Escalate && Ruled(k, s, c).effect == Nothing
  {
    SeenOnlyObserves(k, s, c);
    if Authentic(c) { EvaluateRules(k, Seen(k, s, c), c); }
  }

  /** The stores after filing: the record and the grant are there, everything else is as it was. */
  predicate StoresWith(s: State, t: State, record: Escalations.Escalation, grant: Grants.Grant) {
    && t.escalations == s.escalations[record.id := record]
    && t.grants == s.grants.(cells := s.grants.cells[grant.escalation := Grants.Cell(grant, None)])
  }

  lemma FilingStores(s: State, record: Escalations.Escalation, grant: Grants.Grant, now: int)
    requires !grant.consumed
    ensures var a := Apply(s, Escalates(record, grant), now);
            StoresWith(s, a, record, grant) && RolledBack(a, Some(grant.escalation)).grants == a.grants
  {
  }

  lemma FiledStores(k: Config, s: State, c: Call, record: Escalations.Escalation, grant: Grants.Grant)
    requires Ruled(k, s, c).effect == Escalates(record, grant) && Ruled(k, s, c).escalation == Some(grant.escalation)
    requires !grant.consumed
    ensures StoresWith(s, Gated(k, s, c).0, record, grant)
  {
    SeenOnlyObserves(k, s, c);
    GrantParts(k, s, c);
    EscalationParts(k, s, c);
    FilingStores(Seen(k, s, c), record, grant, c.now);
  }

  /** A call without an effect leaves the records alone, and the grants too unless its audit record fails. */
  lemma IdleStores(k: Config, s: State, c: Call)
    requires Ruled(k, s, c).effect == Nothing
    ensures var t, named := Gated(k, s, c).0, Ruled(k, s, c).escalation;
            && t.escalations == s.escalations
            && t.grants == if Recorded(c) || named.None? then s.grants else Grants.Unconsumed(s.grants, named.value)
  {
    SeenOnlyObserves(k, s, c);
    GrantParts(k, s, c);
    EscalationParts(k, s, c);
  }

  lemma EscalateVerdict(k: Config, s: State, c: Call)
    ensures Gated(k, s, c).1.verdict == Escalate <==> Ruled(k, s, c).verdict == Escalate && c.recordBuilds
  {
    DecisionTold(k, s, c);
  }

  /** ESCALATE against everything else, for evaluate. It files an escalation exactly when the request is well formed,
      the drawn id is free, and the policy blocks, or the request needs the Owner under a capability in force, or it is
      covered live while the provenance cannot be established. Record and grant hold what was asked, whatever becomes
      of the audit record; the answer is ESCALATE as soon as that record can be built. In every other case the stores
      stay as they were. */
  lemma EvaluateEscalatesExactlyWhen(k: Config, s: State, c: Call)
    requires c.op == Evaluate
    ensures Gated(k, s, c).1.verdict == Escalate <==> Files(k, s, c) && c.recordBuilds
    ensures if Files(k, s, c) then
              StoresWith(s, Gated(k, s, c).0, RecordFor(k, c, ReasonFor(k, s, c)),
                         GrantAs(k, s, c, ReasonFor(k, s, c), CapabilityFor(k, s, c), ProvenanceFor(k, s, c)))
              && Gated(k, s, c).1.escalation == Some(c.newId)
            else StoresKept(s, Gated(k, s, c).0)
  {
    RuledFiles(k, s, c);
    EscalateVerdict(k, s, c);
    DecisionParts(k, s, c);
    if Files(k, s, c) {
      FiledStores(k, s, c, Ruled(k, s, c).effect.record, Ruled(k, s, c).effect.grant);
    } else {
      RuledLawful(k, s, c);
      IdleStores(k, s, c);
    }
  }
  /** Position i of the active capabilities covers the request, no other but the first comes before it, and the first
      is only taken when no other does: where evaluate's loop stops. */
  predicate StopsAt(active: seq<Capability>, ask: Ask, now: int, i: nat) {
    && i < |active| && Covers(active[i], ask, now)
    && forall j | 1 <= j < |active| && (j < i || i == 0) :: !Covers(active[j], ask, now)
  }

  /** The capability a grant is bound to: for a request that needs the Owner the caller's first active one; for an
      unestablished provenance the covering one that the loop stops at. */
  lemma FiledUnder(k: Config, s: State, c: Call)
    requires Files(k, s, c) && !PolicyBlocks(k, s.policy)
    ensures var active := Registry.ActiveFor(c.caps, Who(c), c.now);
            && active != []
            && (NeedsOwner(c) ==> CapabilityFor(k, s, c) == Some(active[0]))
            && (!NeedsOwner(c) ==> exists i: nat :: StopsAt(active, Asks(c), c.now, i) && CapabilityFor(k, s, c) == Some(active[i]))
  {
    if NeedsOwner(c) {
      MandatoryChoice(k, c);
    } else {
      var cap :| cap in c.caps && Covers(cap, Asks(c), c.now);
      Registry.LookupsComeFromTheRegistry(c.caps, Who(c), c.now, cap);
      CoveredExactlyWhenAllowed(k, c);
      CoveringChoice(k, c);
    }
  }

  lemma CoveringChoice(k: Config, c: Call)
    requires Covered(k, c) && Registry.ActiveFor(c.caps, Who(c), c.now) != []
    ensures var active := Registry.ActiveFor(c.caps, Who(c), c.now);
            exists i: nat :: StopsAt(active, Asks(c), c.now, i)
                             && EvaluateCapability(k, c, Who(c), Parse(Canon(c))) == Some(active[i])
  {
    var active, s := Registry.ActiveFor(c.caps, Who(c), c.now), SituationOf(k, c);
    var ds := Dispositions(Candidates(c.caps, Who(c), c.now), DeciderFor(Asks(c), s));
    CoveredExactlyWhenAllowed(k, c);
    MandateCoversMeans(Asks(c), s);
    ReservedMeans(Asks(c));
    forall j | 0 <= j < |active| ensures ds[j] == Allow <==> Covers(active[j], Asks(c), c.now) {
      DispositionExactlyWhen(Some(active[j]), Asks(c), false, s);
    }
    assert StopsAt(active, Asks(c), c.now, EvaluateChoice(ds));
  }

  /** When nothing covers the request and nothing can be asked of the Owner, the first candidate decides: the caller's
      first active capability, else the first registered one, else none. */
  lemma RefusedUnder(k: Config, c: Call)
    requires Authentic(c) && Parse(Canon(c)).Asked? && !Covered(k, c) && !AsksOwner(k, c)
    ensures BestCheck(k, c).decision == Refuse
    ensures var active, bound := Registry.ActiveFor(c.caps, Who(c), c.now), Registry.ForPrincipal(c.caps, Who(c));
            EvaluateCapability(k, c, Who(c), Parse(Canon(c))) ==
            if active != [] then Some(active[0]) else if bound != [] then Some(bound[0]) else None
  {
    CoveredExactlyWhenAllowed(k, c);
    MandatoryExactlyWhen(k, c);
    NoneBetter(Dispositions(Candidates(c.caps, Who(c), c.now), DeciderFor(Asks(c), SituationOf(k, c))));
  }

  lemma NoneBetter(ds: seq<Disposition>)
    requires ds != [] && ds[EvaluateChoice(ds)] == Refuse
    ensures EvaluateChoice(ds) == 0
  {
    BothChoicesStrongest(ds);
  }

  // ---------------------------------------------------------------- evaluate: the rules it names

  function DriftNote(c: Call): seq<string> {
    if c.provenance.Matches? && c.provenance.drift then ["provenance.head_drift_diagnostic"] else []
  }

  /** The rules of a ruling, and the check whose frame the audit record quotes. */
  predicate Names(r: Ruling, rules: seq<string>, frame: Option<Check>) {
    r.rules == rules && r.frame == frame
  }

  lemma EvaluateByNames(k: Config, s: State, c: Call, canon: Fields, who: string, rule: string, p: Parsed, cap: Option<Capability>,
                        check: Check)
    requires p.Asked?
    ensures var r, gone := EvaluateBy(k, s, c, canon, who, rule, p, cap, check), c.newId in s.escalations;
            && (r.None? <==> gone && (check.decision == OwnerMandatory || (check.decision == Allow && Unestablished(c.provenance))))
            && (r.Some? ==> r.value.frame == Some(check))
            && (check.decision == Refuse ==> r.Some? && r.value.rules == [rule] + check.rules)
            && (check.decision == OwnerMandatory && r.Some? ==> r.value.rules == [rule] + check.rules + ["escalate.created"])
            && (check.decision == Allow && c.provenance.Mismatches? && r.Some? ==>
                  r.value.rules == [rule] + check.rules + ["provenance.mismatch"])
            && (check.decision == Allow && Unestablished(c.provenance) && r.Some? ==>
                  r.value.rules == [rule] + check.rules + ["provenance.unavailable"] + ["escalate.created"])
            && (check.decision == Allow && c.provenance.Matches? && r.Some? ==>
                  r.value.rules == [rule] + check.rules + DriftNote(c) + ["provenance.ok"])
  {
  }

  /** The reason evaluate gives before it looks at any capability: a malformed request, or a policy that blocks. */
  lemma EarlyReasons(k: Config, s: State, c: Call)
    requires Authentic(c) && c.op == Evaluate
    ensures Parse(Canon(c)).Malformed? ==> Names(TheRuling(k, s, c), [Parse(Canon(c)).rule], None)
    ensures Parse(Canon(c)).Asked? && PolicyBlocks(k, s.policy) && c.newId !in s.escalations ==>
              Names(TheRuling(k, s, c), ["evaluate", "policy.blocks_permit", "escalate.created"], None)
    ensures Parse(Canon(c)).Asked? && PolicyBlocks(k, s.policy) && c.newId in s.escalations ==>
              Names(TheRuling(k, s, c), ["evaluate.error"], None)
  {
    assert ["evaluate", "policy.blocks_permit"] + ["escalate.created"] == ["evaluate", "policy.blocks_permit", "escalate.created"];
    assert Evaluate.Name() + ".error" == "evaluate.error";
  }

  lemma CheckedRuling(k: Config, s: State, c: Call)
    requires Authentic(c) && c.op == Evaluate && Parse(Canon(c)).Asked? && !PolicyBlocks(k, s.policy)
    ensures var p := Parse(Canon(c));
            TheRuling(k, s, c) ==
            EvaluateBy(k, s, c, Canon(c), Who(c), c.authn.rule, p, EvaluateCapability(k, c, Who(c), p), BestCheck(k, c))
              .GetOr(Denial(["evaluate.error"], Canon(c), c.authn.principal))
  {
    assert Evaluate.Name() + ".error" == "evaluate.error";
  }

  /** The reason it gives once a capability check has decided: the rules of the check, then what came of it. */
  lemma CheckedReasons(k: Config, s: State, c: Call)
    requires Authentic(c) && c.op == Evaluate && Parse(Canon(c)).Asked? && !PolicyBlocks(k, s.policy)
    ensures var r, check := TheRuling(k, s, c), BestCheck(k, c); var rules := [c.authn.rule] + check.rules;
            if c.newId in s.escalations && (AsksOwner(k, c) || (Covered(k, c) && Unestablished(c.provenance))) then
              Names(r, ["evaluate.error"], None)
            else if AsksOwner(k, c) then Names(r, rules + ["escalate.created"], Some(check))
            else if !Covered(k, c) then Names(r, rules, Some(check))
            else if c.provenance.Mismatches? then Names(r, rules + ["provenance.mismatch"], Some(check))
            else if Unestablished(c.provenance) then Names(r, rules + ["provenance.unavailable"] + ["escalate.created"], Some(check))
            else Names(r, rules + DriftNote(c) + ["provenance.ok"], Some(check))
  {
    var p := Parse(Canon(c));
    CheckedRuling(k, s, c);
    CoveredExactlyWhenAllowed(k, c);
    MandatoryExactlyWhen(k, c);
    EvaluateByNames(k, s, c, Canon(c), Who(c), c.authn.rule, p, EvaluateCapability(k, c, Who(c), p), BestCheck(k, c));
  }
  // ---------------------------------------------------------------- reenter

  /** The record is decided, permitted by the Owner, and the caller's own. */
  predicate OwnAndPermitted(s: State, c: Call, id: string) {
    && Authentic(c) && id in s.escalations && s.escalations[id].status == Escalations.Decided
    && s.escalations[id].ownerDecision == Some("permit") && s.escalations[id].principal == Who(c)
  }

  /** The Owner's permit stands in: an unused grant, made for this very action or this very risk. */
  predicate StandsIn(s: State, c: Call, id: string)
    requires Authentic(c) && Parse(Canon(c)).Asked?
  {
    && id in s.grants.cells
    && var g := s.grants.cells[id].grant;
       && g.ownerDecision == "permit" && !g.consumed
       && ((g.reason == Grants.MandatoryAction && g.terms.action == Parse(Canon(c)).action)
           || (g.reason == Grants.MandatoryRisk && g.terms.risk == Parse(Canon(c)).risk))
  }

  /** The capability that answers for the grant covers the request live. */
  predicate CoveredAnew(k: Config, s: State, c: Call, id: string) {
    && Authentic(c) && Parse(Canon(c)).Asked?
    && var cap := ReenterCapability(k, s, c, Who(c), Parse(Canon(c)), id);
       && cap.Some? && Covers(cap.value, Asks(c), c.now) && (NeedsOwner(c) ==> StandsIn(s, c, id))
       && (k.requireContext ==> ContextCovers(Asks(c), SituationOf(k, c)))
  }

  /** Exactly when a re-entry is escalated again, under the id it came with. */
  predicate EscalatesAgain(k: Config, s: State, c: Call, id: string) {
    && Presents(k, c, id) && OwnAndPermitted(s, c, id) && Parse(Canon(c)).Asked?
    && (PolicyBlocks(k, s.policy) || (CoveredAnew(k, s, c, id) && Unestablished(c.provenance)))
  }

  lemma CoveredAnewExactlyWhen(k: Config, s: State, c: Call, id: string)
    requires Authentic(c) && Parse(Canon(c)).Asked?
    ensures LiveCheckOf(k, s, c, id, ReenterCapability(k, s, c, Who(c), Parse(Canon(c)), id)).decision == Allow
            <==> CoveredAnew(k, s, c, id)
  {
    var p := Parse(Canon(c));
    ReservedMeans(Asks(c));
    MandateCoversMeans(Asks(c), SituationOf(k, c));
    DispositionExactlyWhen(ReenterCapability(k, s, c, Who(c), p, id), Asks(c), Skips(GrantFor(s, id), p), SituationOf(k, c));
  }

  lemma ReenterByEscalates(k: Config, s: State, c: Call, canon: Fields, who: string, rule: string, p: Parsed, id: string,
                           cap: Option<Capability>, check: Check)
    requires p.Asked?
    ensures var r := ReenterBy(k, s, c, canon, who, rule, p, id, cap, check);
            && (r.verdict == Escalate <==> check.decision == Allow && Unestablished(c.provenance))
            && r.escalation == Some(id)
  {
  }

  lemma ReenterOnEscalates(k: Config, s: State, c: Call, id: string)
    requires Presents(k, c, id) && OwnAndPermitted(s, c, id)
    ensures var r := ReenterOn(k, s, c, Canon(c), Who(c), c.authn.rule, id);
            && (r.verdict == Escalate <==> EscalatesAgain(k, s, c, id))
            && r.escalation == if Parse(Canon(c)).Malformed? then None else Some(id)
  {
    var p := Parse(Canon(c));
    if p.Asked? && !PolicyBlocks(k, s.policy) {
      var cap := ReenterCapability(k, s, c, Who(c), p, id);
      CoveredAnewExactlyWhen(k, s, c, id);
      ReenterByEscalates(k, s, c, Canon(c), Who(c), c.authn.rule, p, id, cap, LiveCheckOf(k, s, c, id, cap));
    }
  }

  /** The escalation that the answer to a re-entry names: the one it presents, if there is such a record, unless a
      permitted record of its own meets a malformed request. */
  predicate NamesIt(k: Config, s: State, c: Call, id: string) {
    Presents(k, c, id) && id in s.escalations && (OwnAndPermitted(s, c, id) ==> Parse(Canon(c)).Asked?)
  }

  lemma ReenterRules(k: Config, s: State, c: Call, id: string)
    requires Authentic(c) && c.op == Reenter && id == k.str(Get(Canon(c), "escalation_id"))
    ensures var r := TheRuling(k, s, c);
            && (r.verdict == Escalate <==> EscalatesAgain(k, s, c, id))
            && r.escalation == if NamesIt(k, s, c, id) then Some(id) else None
  {
    if Presents(k, c, id) && id in s.escalations {
      RecordPasses(s, c, id);
      if OwnAndPermitted(s, c, id) { ReenterOnEscalates(k, s, c, id); }
    }
  }

  lemma RuledAgain(k: Config, s: State, c: Call, id: string)
    requires Authentic(c) && c.op == Reenter && id == k.str(Get(Canon(c), "escalation_id"))
    ensures var r := Ruled(k, s, c);
            && (r.verdict == Escalate <==> EscalatesAgain(k, s, c, id))
            && r.escalation == if NamesIt(k, s, c, id) then Some(id) else None
  {
    ReenterRules(k, Seen(k, s, c), c, id);
    AgainInSeen(k, s, c, id);
  }

  lemma AgainInSeen(k: Config, s: State, c: Call, id: string)
    ensures EscalatesAgain(k, Seen(k, s, c), c, id) == EscalatesAgain(k, s, c, id)
    ensures NamesIt(k, Seen(k, s, c), c, id) == NamesIt(k, s, c, id)
  {
    SeenOnlyObserves(k, s, c);
  }

  lemma UnpermittedReentryIsIdle(k: Config, s: State, c: Call)
    requires c.op == Reenter && Ruled(k, s, c).verdict != Permit
    ensures Ruled(k, s, c).effect == Nothing
  {
    RuledLawful(k, s, c);
    OnlyPermitsRedeem(k, Seen(k, s, c), c, Ruled(k, s, c));
  }

  lemma OnlyPermitsRedeem(k: Config, s: State, c: Call, r: Ruling)
    requires Lawful(k, s, c, r) && c.op == Reenter && r.verdict != Permit
    ensures r.effect == Nothing
  {
  }

  /** ESCALATE against everything else, for reenter: it escalates again exactly when it presents a decided, permitted
      record of the caller's own with a well-formed request, and the policy blocks, or the request is covered live while
      the provenance cannot be established. The answer names the presented id; and unless the ruling was a PERMIT the
      records stay as they were, and so do the grants, except that a failing audit record takes back the presented one. */
  lemma ReenterEscalatesExactlyWhen(k: Config, s: State, c: Call, id: string)
    requires Authentic(c) && c.op == Reenter && id == k.str(Get(Canon(c), "escalation_id"))
    ensures var t, d := Gated(k, s, c).0, Gated(k, s, c).1;
            && (d.verdict == Escalate <==> EscalatesAgain(k, s, c, id) && c.recordBuilds)
            && d.escalation == (if NamesIt(k, s, c, id) then Some(id) else None)
            && (Ruled(k, s, c).verdict != Permit ==>
                  && t.escalations == s.escalations
                  && t.grants == if Recorded(c) || !NamesIt(k, s, c, id) then s.grants else Grants.Unconsumed(s.grants, id))
  {
    RuledAgain(k, s, c, id);
    EscalateVerdict(k, s, c);
    DecisionParts(k, s, c);
    if Ruled(k, s, c).verdict != Permit {
      UnpermittedReentryIsIdle(k, s, c);
      IdleStores(k, s, c);
    }
  }

  /** The capability that answers for a grant: the one it names, if it is registered; for a grant that names none, the
      caller's first active one that covers the request, if there is one. */
  lemma AnsweringCapability(k: Config, s: State, c: Call, id: string)
    requires Authentic(c) && Parse(Canon(c)).Asked?
    ensures var cap := ReenterCapability(k, s, c, Who(c), Parse(Canon(c)), id);
            var active := Registry.ActiveFor(c.caps, Who(c), c.now);
            if id in s.grants.cells && s.grants.cells[id].grant.terms.capability != "" then
              cap == Registry.GetCap(c.caps, s.grants.cells[id].grant.terms.capability)
            else
              Covered(k, c) ==> exists i: nat :: FirstCovering(active, Asks(c), c.now, i) && cap == Some(active[i])
  {
    if Covered(k, c) && !(id in s.grants.cells && s.grants.cells[id].grant.terms.capability != "") {
      FirstCoveringChosen(k, c);
    }
  }

  predicate FirstCovering(active: seq<Capability>, ask: Ask, now: int, i: nat) {
    i < |active| && Covers(active[i], ask, now) && forall j | 0 <= j < i :: !Covers(active[j], ask, now)
  }

  lemma FirstCoveringChosen(k: Config, c: Call)
    requires Covered(k, c)
    ensures var active := Registry.ActiveFor(c.caps, Who(c), c.now);
            var caps, decide := Candidates(c.caps, Who(c), c.now), DeciderFor(Asks(c), SituationOf(k, c));
            exists i: nat :: FirstCovering(active, Asks(c), c.now, i) && caps[ReenterChoice(Dispositions(caps, decide))] == Some(active[i])
  {
    var active, s := Registry.ActiveFor(c.caps, Who(c), c.now), SituationOf(k, c);
    var ds := Dispositions(Candidates(c.caps, Who(c), c.now), DeciderFor(Asks(c), s));
    var cap :| cap in c.caps && Covers(cap, Asks(c), c.now);
    Registry.LookupsComeFromTheRegistry(c.caps, Who(c), c.now, cap);
    MandateCoversMeans(Asks(c), s);
    ReservedMeans(Asks(c));
    forall j | 0 <= j < |active| ensures ds[j] == Allow <==> Covers(active[j], Asks(c), c.now) {
      DispositionExactlyWhen(Some(active[j]), Asks(c), false, s);
    }
    var i :| 0 <= i < |active| && active[i] == cap;
    assert ds[i] == Allow;
    assert FirstCovering(active, Asks(c), c.now, ReenterChoice(ds));
  }

  /** The reason a re-entry is turned away before its request is looked at. */
  lemma RecordReasons(k: Config, s: State, c: Call, id: string)
    requires Authentic(c) && c.op == Reenter && id == k.str(Get(Canon(c), "escalation_id"))
    ensures var r := TheRuling(k, s, c);
            && (!Get(Canon(c), "escalation_id").Truthy() ==> r.verdict == Deny && Names(r, ["reentry.missing_id"], None))
            && (Presents(k, c, id) && id !in s.escalations ==> r.verdict == Deny && Names(r, ["reentry.not_found"], None))
            && (Presents(k, c, id) && id in s.escalations && !OwnAndPermitted(s, c, id) ==>
                  var e := s.escalations[id];
                  r.verdict == Deny &&
                  Names(r, [if e.status == Escalations.Pending then "reentry.pending"
                            else if e.ownerDecision != Some("permit") then "reentry.owner_deny"
                            else if e.status == Escalations.Resolved then "reentry.already_resolved"
                            else "reentry.principal_mismatch"], None))
  {
    if Presents(k, c, id) && id in s.escalations { RecordPasses(s, c, id); }
  }

  lemma ReenterByNames(k: Config, s: State, c: Call, canon: Fields, who: string, rule: string, p: Parsed, id: string,
                       cap: Option<Capability>, check: Check)
    requires p.Asked?
    ensures var r, rules := ReenterBy(k, s, c, canon, who, rule, p, id, cap, check), [rule, "reentry.escalation_matched"] + check.rules;
            if check.decision != Allow then r.verdict == Deny && Names(r, rules, Some(check))
            else if c.provenance.Mismatches? then r.verdict == Deny && Names(r, rules + ["provenance.mismatch"], Some(check))
            else if Unestablished(c.provenance) then Names(r, rules + ["provenance.unavailable"], Some(check))
            else if r.verdict != Permit then Names(r, rules + ["grant.rejected"], Some(check))
            else Names(r, rules + DriftNote(c) + ["provenance.ok"], Some(check))
  {
  }

  /** The reason once the record lets it through. */
  lemma ReenterReasons(k: Config, s: State, c: Call, id: string)
    requires Presents(k, c, id) && OwnAndPermitted(s, c, id)
    ensures var r, p := TheRuling(k, s, c), Parse(Canon(c));
            if p.Malformed? then r.verdict == Deny && Names(r, [p.rule], None)
            else if PolicyBlocks(k, s.policy) then Names(r, ["reentry", c.authn.rule, "policy.blocks_permit"] + ["escalate.created"], None)
            else
              var check := LiveCheckOf(k, s, c, id, ReenterCapability(k, s, c, Who(c), p, id));
              var rules := [c.authn.rule, "reentry.escalation_matched"] + check.rules;
              if !CoveredAnew(k, s, c, id) then r.verdict == Deny && Names(r, rules, Some(check))
              else if c.provenance.Mismatches? then r.verdict == Deny && Names(r, rules + ["provenance.mismatch"], Some(check))
              else if Unestablished(c.provenance) then Names(r, rules + ["provenance.unavailable"], Some(check))
              else if r.verdict != Permit then Names(r, rules + ["grant.rejected"], Some(check))
              else Names(r, rules + DriftNote(c) + ["provenance.ok"], Some(check))
  {
    var p := Parse(Canon(c));
    RecordPasses(s, c, id);
    if p.Asked? && !PolicyBlocks(k, s.policy) {
      var cap := ReenterCapability(k, s, c, Who(c), p, id);
      CoveredAnewExactlyWhen(k, s, c, id);
      ReenterByNames(k, s, c, Canon(c), Who(c), c.authn.rule, p, id, cap, LiveCheckOf(k, s, c, id, cap));
    }
  }
  lemma RedemptionStores(s: State, id: string, now: int)
    requires id in s.escalations && s.escalations[id].status == Escalations.Decided && id in s.grants.cells
    ensures UsedUp(s, Apply(s, Redeems(id), now), id)
    ensures Escalations.ResolveIn(s.escalations, id) == s.escalations[id := s.escalations[id].(status := Escalations.Resolved)]
  {
  }

  /** The grant is used up, and the execution log, if there is one, has one live record more, which the grant names. */
  predicate UsedUp(s: State, t: State, id: string)
    requires id in s.grants.cells
  {
    var g, log := s.grants.cells[id].grant, s.grants.log;
    if log.None? then t.grants == s.grants.(cells := s.grants.cells[id := s.grants.cells[id].(grant := g.(consumed := true))])
    else
      t.grants == Grants.GrantState(
        s.grants.cells[id := Grants.Cell(g.(consumed := true), Some(|log.value| + 1))],
        Some(log.value + [ExecutionLogs.Execution(|log.value| + 1, g.terms.request, g.terms.principal, g.escalation, false)]))
  }

  /** What a permitted re-entry leaves: the record resolved, the grant used up, one more live execution record. */
  lemma PermittedReentryRedeems(k: Config, s: State, c: Call, id: string)
    requires Gated(k, s, c).1.verdict == Permit && Gated(k, s, c).1.escalation == Some(id)
    ensures id in s.escalations && id in s.grants.cells
    ensures Gated(k, s, c).0.escalations == s.escalations[id := s.escalations[id].(status := Escalations.Resolved)]
    ensures UsedUp(s, Gated(k, s, c).0, id)
  {
    PermitResolves(k, s, c, id);
    CallRedeemed(k, s, c);
    SeenOnlyObserves(k, s, c);
    DecisionParts(k, s, c);
    GrantParts(k, s, c);
    EscalationParts(k, s, c);
    RedemptionStores(Seen(k, s, c), id, c.now);
  }
}
