/** Exactly when the mediator permits: the converse of where authority comes from. */
module KernelExact {
  import opened Domain
  import opened JsonValues
  import opened Authorization
  import opened Kernel
  import opened Rulings
  import opened KernelSteps
  import opened KernelRuns
  import opened KernelOrigin
  import Mandates
  import Registry
  import Grants
  import Escalations
  import Authentication

  // ---------------------------------------------------------------- evaluate

  predicate InCandidates(caps: seq<Capability>, who: string, now: int, cap: Capability) {
    exists i :: 0 <= i < |Candidates(caps, who, now)| && Candidates(caps, who, now)[i] == Some(cap)
  }

  lemma ActiveIsCandidate(caps: seq<Capability>, who: string, now: int, cap: Capability)
    requires cap in caps && cap.principal == who && cap.Active(now)
    ensures InCandidates(caps, who, now, cap)
  {
    Registry.LookupsComeFromTheRegistry(caps, who, now, cap);
    var active := Registry.ActiveFor(caps, who, now);
    var i :| 0 <= i < |active| && active[i] == cap;
    assert Candidates(caps, who, now)[i] == Some(cap);
  }

  /** Whatever the order of the registry, the capability evaluate settles on allows the request exactly when some
      registered capability does. */
  lemma BestAllowsExactlyWhenSomeDoes(k: Config, c: Call, who: string, p: Parsed)
    requires p.Asked?
    ensures var best := EvaluateCapability(k, c, who, p); var ask := AskOf(who, p);
            CheckCapability(best, ask, false, SituationOf(k, c)).decision == Allow <==> AllowedLive(k, c, ask, false)
  {
    var best, ask, s := EvaluateCapability(k, c, who, p), AskOf(who, p), SituationOf(k, c);
    EvaluateCapabilityRegistered(k, c, who, p);
    if CheckCapability(best, ask, false, s).decision == Allow {
      AllowNeedsCapability(k, c, ask, best, false);
    }
    if AllowedLive(k, c, ask, false) {
      var cap :| cap in c.caps && CheckCapability(Some(cap), ask, false, s).decision == Allow;
      DispositionExactlyWhen(Some(cap), ask, false, s);
      ActiveIsCandidate(c.caps, who, c.now, cap);
      AllowWins(Candidates(c.caps, who, c.now), DeciderFor(ask, s), cap);
    }
  }

  lemma AllowWins(caps: seq<Option<Capability>>, decide: Decider, cap: Capability)
    requires caps != [] && decide(Some(cap)).decision == Allow
    requires exists i :: 0 <= i < |caps| && caps[i] == Some(cap)
    ensures decide(caps[EvaluateChoice(Dispositions(caps, decide))]).decision == Allow
  {
    var ds := Dispositions(caps, decide);
    BothChoicesStrongest(ds);
    var i :| 0 <= i < |caps| && caps[i] == Some(cap);
    assert ds[i] == Allow;
  }

  lemma AllowedLiveMeans(k: Config, c: Call, ask: Ask)
    ensures AllowedLive(k, c, ask, false) <==>
            (ask.principal == "owner" || (ask.action != Commit && ask.risk != High))
            && (exists cap :: cap in c.caps && Covers(cap, ask, c.now))
            && (k.requireContext ==> MandateCovers(ask, SituationOf(k, c)))
  {
    var s := SituationOf(k, c);
    ReservedMeans(ask);
    if AllowedLive(k, c, ask, false) {
      var cap :| cap in c.caps && CheckCapability(Some(cap), ask, false, s).decision == Allow;
      DispositionExactlyWhen(Some(cap), ask, false, s);
    }
    if cap :| cap in c.caps && Covers(cap, ask, c.now) {
      DispositionExactlyWhen(Some(cap), ask, false, s);
      if (ask.principal == "owner" || (ask.action != Commit && ask.risk != High)) && (k.requireContext ==> MandateCovers(ask, s)) {
        assert CheckCapability(Some(cap), ask, false, s).decision == Allow;
      }
    }
  }

  lemma EvaluateRulesPermit(k: Config, s: State, c: Call)
    requires Authentic(c) && c.op == Evaluate
    ensures TheRuling(k, s, c).verdict == Permit <==>
            Parse(Canon(c)).Asked? && !PolicyBlocks(k, s.policy) && c.provenance.Matches?
            && AllowedLive(k, c, AskOf(Who(c), Parse(Canon(c))), false)
  {
    var p := Parse(Canon(c));
    if p.Asked? && !PolicyBlocks(k, s.policy) {
      var cap := EvaluateCapability(k, c, Who(c), p);
      var check := CheckCapability(cap, AskOf(Who(c), p), false, SituationOf(k, c));
      BestAllowsExactlyWhenSomeDoes(k, c, Who(c), p);
      EvaluateByPermits(k, s, c, p, cap, check);
    }
  }

  lemma EvaluateByPermits(k: Config, s: State, c: Call, p: Parsed, cap: Option<Capability>, check: Check)
    requires Authentic(c) && p.Asked?
    ensures var r := EvaluateBy(k, s, c, Canon(c), Who(c), c.authn.rule, p, cap, check);
            r.Some? && r.value.verdict == Permit <==> check.decision == Allow && c.provenance.Matches?
  {
  }

  /** evaluate permits exactly when the request is covered live, needs no Owner decision, and the PERMIT is on record. */
  lemma EvaluatePermitsExactlyWhen(k: Config, s: State, c: Call)
    requires c.op == Evaluate
    ensures Gated(k, s, c).1.verdict == Permit <==>
            LivePermit(k, s, c) && (Who(c) == "owner" || (Parse(Canon(c)).action != Commit && Parse(Canon(c)).risk != High))
            && Recorded(c) && c.append.hash != ""
  {
    DecisionParts(k, s, c);
    SeenOnlyObserves(k, s, c);
    if Authentic(c) {
      EvaluateRulesPermit(k, Seen(k, s, c), c);
      if Parse(Canon(c)).Asked? {
        AllowedLiveMeans(k, c, AskOf(Who(c), Parse(Canon(c))));
      }
    }
  }

  // ---------------------------------------------------------------- reenter

  /** What a re-entry needs of the kernel's records. */
  predicate RecordsReady(s: State, c: Call, id: string) {
    && Authentic(c) && Filed(s, id)
    && s.escalations[id].status == Escalations.Decided && s.escalations[id].ownerDecision == Some("permit")
    && s.escalations[id].principal == Who(c)
    && s.grants.cells[id].grant.ownerDecision == "permit" && !s.grants.cells[id].grant.consumed
    && c.now < s.grants.cells[id].grant.expires
  }

  /** Policy and provenance escalations release the capability. */
  predicate Released(g: Grants.Grant) {
    g.reason == Grants.PolicyReason || g.reason == Grants.ProvenanceReason
  }

  /** What it needs of its own request: the terms of the grant, without those that the reason releases. */
  predicate PresentsTerms(k: Config, s: State, c: Call, g: Grants.Grant, cap: Capability)
    requires Authentic(c) && Parse(Canon(c)).Asked? && c.provenance.Matches?
  {
    && g.terms.principal == Who(c) && g.terms.agent == TextField(k, c, "agent_id") && g.terms.request == TextField(k, c, "request_id")
    && g.terms.action == Parse(Canon(c)).action && g.terms.domain == Parse(Canon(c)).domain
    && g.terms.risk == Parse(Canon(c)).risk && g.terms.payload == ContentHash(k, c)
    && (!Released(g) ==> g.terms.capability == cap.id && g.terms.scope == k.scope(cap))
    && (g.reason != Grants.PolicyReason ==> s.policy.Some? && g.terms.policyHash == s.policy.value.hash)
    && (g.reason != Grants.ProvenanceReason ==> g.terms.provenance == c.provenance.identity)
  }

  /** A re-entry may go ahead under this capability: records and policy are ready, provenance matches, the capability
      (and the mandate, if required) covers the request live, an Owner decision that the request needs is the one the
      grant records, and the grant binds what is presented. */
  predicate ReentryReady(k: Config, s: State, c: Call, id: string, cap: Capability) {
    && RecordsReady(s, c, id) && !PolicyBlocks(k, s.policy) && Parse(Canon(c)).Asked? && c.provenance.Matches?
    && Covers(cap, Asks(c), c.now) && (NeedsOwner(c) ==> !Released(s.grants.cells[id].grant))
    && (k.requireContext ==> MandateCovers(Asks(c), SituationOf(k, c)))
    && PresentsTerms(k, s, c, s.grants.cells[id].grant, cap)
  }

  lemma BindsExactlyWhen(k: Config, s: State, c: Call, g: Grants.Grant, cap: Capability)
    requires Authentic(c) && Parse(Canon(c)).Asked? && c.provenance.Matches? && s.policy.Some?
    ensures Grants.Binds(g, TermsOf(k, s.policy, Canon(c), Who(c), Parse(Canon(c)), Some(cap), c.provenance.identity))
            <==> PresentsTerms(k, s, c, g, cap)
  {
  }

  /** The live check of a re-entry under a capability. */
  function LiveCheckOf(k: Config, s: State, c: Call, id: string, cap: Option<Capability>): Check
    requires Authentic(c) && Parse(Canon(c)).Asked?
  {
    CheckCapability(cap, AskOf(Who(c), Parse(Canon(c))), Skips(GrantFor(s, id), Parse(Canon(c))), SituationOf(k, c))
  }

  lemma RecordPasses(s: State, c: Call, id: string)
    requires Authentic(c) && id in s.escalations
    ensures RecordRefusal(s.escalations[id], Who(c)).None? <==>
            s.escalations[id].status == Escalations.Decided && s.escalations[id].ownerDecision == Some("permit")
            && s.escalations[id].principal == Who(c)
  {
  }

  lemma ReenterByPermits(k: Config, s: State, c: Call, canon: Fields, who: string, rule: string, p: Parsed, id: string,
                         cap: Option<Capability>, check: Check)
    requires p.Asked?
    ensures ReenterBy(k, s, c, canon, who, rule, p, id, cap, check).verdict == Permit <==>
            && check.decision == Allow && c.provenance.Matches?
            && Grants.RefuseRedeem(s.grants, id, TermsOf(k, s.policy, canon, who, p, cap, c.provenance.identity), c.now).None?
  {
  }

  lemma ReenterOnPermits(k: Config, s: State, c: Call, id: string)
    requires Presents(k, c, id) && id in s.escalations && RecordRefusal(s.escalations[id], Who(c)).None?
    ensures ReenterOn(k, s, c, Canon(c), Who(c), c.authn.rule, id).verdict == Permit <==>
            && Parse(Canon(c)).Asked? && !PolicyBlocks(k, s.policy) && c.provenance.Matches?
            && var cap := ReenterCapability(k, s, c, Who(c), Parse(Canon(c)), id);
               && LiveCheckOf(k, s, c, id, cap).decision == Allow
               && Grants.RefuseRedeem(s.grants, id, TermsOf(k, s.policy, Canon(c), Who(c), Parse(Canon(c)), cap,
                                                           c.provenance.identity), c.now).None?
  {
    var p := Parse(Canon(c));
    if p.Asked? && !PolicyBlocks(k, s.policy) {
      var cap := ReenterCapability(k, s, c, Who(c), p, id);
      ReenterByPermits(k, s, c, Canon(c), Who(c), c.authn.rule, p, id, cap, LiveCheckOf(k, s, c, id, cap));
    }
  }

  lemma ReadyExactlyWhen(k: Config, s: State, c: Call, id: string, cap: Option<Capability>)
    requires Presents(k, c, id) && id in s.escalations && RecordRefusal(s.escalations[id], Who(c)).None?
    requires Parse(Canon(c)).Asked? && !PolicyBlocks(k, s.policy) && c.provenance.Matches?
    ensures LiveCheckOf(k, s, c, id, cap).decision == Allow
            && Grants.RefuseRedeem(s.grants, id, TermsOf(k, s.policy, Canon(c), Who(c), Parse(Canon(c)), cap,
                                                        c.provenance.identity), c.now).None?
            <==> cap.Some? && ReentryReady(k, s, c, id, cap.value)
  {
    var p := Parse(Canon(c));
    RecordPasses(s, c, id);
    ReservedMeans(Asks(c));
    DispositionExactlyWhen(cap, Asks(c), Skips(GrantFor(s, id), p), SituationOf(k, c));
    if cap.Some? && id in s.grants.cells {
      BindsExactlyWhen(k, s, c, s.grants.cells[id].grant, cap.value);
      SkipsUnlessReleased(s.grants.cells[id].grant, p);
    }
  }

  lemma SkipsUnlessReleased(g: Grants.Grant, p: Parsed)
    requires p.Asked?
    ensures g.ownerDecision == "permit" && !g.consumed && g.terms.action == p.action && g.terms.risk == p.risk ==>
              (Skips(Some(g), p) <==> !Released(g))
  {
  }

  lemma ReenterRulesPermit(k: Config, s: State, c: Call, id: string)
    requires Presents(k, c, id)
    ensures TheRuling(k, s, c).verdict == Permit <==>
            Parse(Canon(c)).Asked? && var cap := ReenterCapability(k, s, c, Who(c), Parse(Canon(c)), id);
                                      cap.Some? && ReentryReady(k, s, c, id, cap.value)
  {
    if id in s.escalations {
      RecordPasses(s, c, id);
      if RecordRefusal(s.escalations[id], Who(c)).None? {
        ReenterOnPermits(k, s, c, id);
        if Parse(Canon(c)).Asked? && !PolicyBlocks(k, s.policy) && c.provenance.Matches? {
          ReadyExactlyWhen(k, s, c, id, ReenterCapability(k, s, c, Who(c), Parse(Canon(c)), id));
        }
      }
    }
  }

  lemma RuledReentryPermits(k: Config, s: State, c: Call, id: string)
    requires Presents(k, c, id)
    ensures Ruled(k, s, c).verdict == Permit <==>
            Parse(Canon(c)).Asked? && var cap := ReenterCapability(k, s, c, Who(c), Parse(Canon(c)), id);
                                      cap.Some? && ReentryReady(k, s, c, id, cap.value)
  {
    ReenterRulesPermit(k, Seen(k, s, c), c, id);
    if Parse(Canon(c)).Asked? { ReadyInSeen(k, s, c, id, ReenterCapability(k, s, c, Who(c), Parse(Canon(c)), id)); }
  }

  lemma RedemptionNames(k: Config, s: State, c: Call, r: Ruling, id: string)
    requires Lawful(k, s, c, r) && r.verdict == Permit
    ensures r.escalation == Some(id) ==> Presents(k, c, id)
    ensures Presents(k, c, id) ==> r.escalation == Some(id)
  {
  }

  /** For grants of every reason: a call is permitted on an escalation exactly when it is a re-entry that carries its
      id, everything is ready under the capability that answers for it, and the PERMIT is on record. */
  lemma ReenterPermitsExactlyWhen(k: Config, s: State, c: Call, id: string)
    ensures Gated(k, s, c).1.verdict == Permit && Gated(k, s, c).1.escalation == Some(id) <==>
            && Presents(k, c, id) && Recorded(c) && c.append.hash != "" && Parse(Canon(c)).Asked?
            && var cap := ReenterCapability(k, s, c, Who(c), Parse(Canon(c)), id);
               cap.Some? && ReentryReady(k, s, c, id, cap.value)
  {
    RuledLawful(k, s, c);
    DecisionParts(k, s, c);
    if Ruled(k, s, c).verdict == Permit { RedemptionNames(k, Seen(k, s, c), c, Ruled(k, s, c), id); }
    if Presents(k, c, id) { RuledReentryPermits(k, s, c, id); }
  }

  /** Observing changes nothing that a re-entry looks at. */
  lemma ReadyInSeen(k: Config, s: State, c: Call, id: string, cap: Option<Capability>)
    requires Authentic(c) && Parse(Canon(c)).Asked?
    ensures ReenterCapability(k, Seen(k, s, c), c, Who(c), Parse(Canon(c)), id)
            == ReenterCapability(k, s, c, Who(c), Parse(Canon(c)), id)
    ensures cap.Some? ==> ReentryReady(k, Seen(k, s, c), c, id, cap.value) == ReentryReady(k, s, c, id, cap.value)
  {
    SeenOnlyObserves(k, s, c);
  }

  lemma ReleasedNeverSkips(g: Grants.Grant, p: Parsed)
    requires Released(g) && p.Asked?
    ensures !Skips(Some(g), p)
  {
  }

  /** So a request that needs the Owner's decision is never permitted on an escalation made for the policy or the
      provenance: whatever the Owner decided there, it must be evaluated, and escalated, again. */
  lemma ReservedNeedsMandatoryEscalation(k: Config, s: State, c: Call, id: string)
    requires Gated(k, s, c).1.verdict == Permit && Gated(k, s, c).1.escalation == Some(id)
    ensures Authentic(c) && Parse(Canon(c)).Asked? && Filed(s, id)
    ensures NeedsOwner(c) ==> !Released(s.grants.cells[id].grant)
  {
    ReenterPermitsExactlyWhen(k, s, c, id);
    if Released(s.grants.cells[id].grant) {
      ReleasedNeverSkips(s.grants.cells[id].grant, Parse(Canon(c)));
    }
  }

  lemma ReenterAllowWins(caps: seq<Option<Capability>>, decide: Decider, cap: Capability)
    requires caps != [] && decide(Some(cap)).decision == Allow
    requires exists i :: 0 <= i < |caps| && caps[i] == Some(cap)
    ensures decide(caps[ReenterChoice(Dispositions(caps, decide))]).decision == Allow
  {
    var ds := Dispositions(caps, decide);
    BothChoicesStrongest(ds);
    var i :| 0 <= i < |caps| && caps[i] == Some(cap);
    assert ds[i] == Allow;
  }

  lemma ReadyAllows(k: Config, s: State, c: Call, id: string, cap: Capability)
    requires ReentryReady(k, s, c, id, cap) && Released(s.grants.cells[id].grant)
    ensures CheckCapability(Some(cap), AskOf(Who(c), Parse(Canon(c))), false, SituationOf(k, c)).decision == Allow
    ensures cap.principal == Who(c) && cap.Active(c.now)
  {
    ReleasedNeverSkips(s.grants.cells[id].grant, Parse(Canon(c)));
    DispositionExactlyWhen(Some(cap), AskOf(Who(c), Parse(Canon(c))), false, SituationOf(k, c));
  }

  /** A released grant binds whatever capability answers. */
  lemma ReadyUnderAnother(k: Config, s: State, c: Call, id: string, cap: Capability, other: Capability)
    requires ReentryReady(k, s, c, id, cap) && Released(s.grants.cells[id].grant)
    requires CheckCapability(Some(other), AskOf(Who(c), Parse(Canon(c))), false, SituationOf(k, c)).decision == Allow
    ensures ReentryReady(k, s, c, id, other)
  {
    DispositionExactlyWhen(Some(other), AskOf(Who(c), Parse(Canon(c))), false, SituationOf(k, c));
  }

  /** For a released grant that names no capability, any registered capability will do: the one the loop settles on is
      ready exactly when some registered one is. */
  lemma AnyCapabilityAnswers(k: Config, s: State, c: Call, id: string)
    requires Authentic(c) && Parse(Canon(c)).Asked? && Filed(s, id)
    requires Released(s.grants.cells[id].grant) && s.grants.cells[id].grant.terms.capability == ""
    ensures var best := ReenterCapability(k, s, c, Who(c), Parse(Canon(c)), id);
            best.Some? && ReentryReady(k, s, c, id, best.value) <==>
            exists cap :: cap in c.caps && ReentryReady(k, s, c, id, cap)
  {
    var p, caps := Parse(Canon(c)), Candidates(c.caps, Who(c), c.now);
    var decide := DeciderFor(AskOf(Who(c), p), SituationOf(k, c));
    ReenterCapabilityRegistered(k, s, c, Who(c), p, id);
    if cap :| cap in c.caps && ReentryReady(k, s, c, id, cap) {
      ReadyAllows(k, s, c, id, cap);
      ActiveIsCandidate(c.caps, Who(c), c.now, cap);
      ReenterAllowWins(caps, decide, cap);
      var best := caps[ReenterChoice(Dispositions(caps, decide))];
      DispositionExactlyWhen(best, AskOf(Who(c), p), false, SituationOf(k, c));
      ReadyUnderAnother(k, s, c, id, cap, best.value);
    }
  }

  /** A mandatory escalation completes: once the Owner has permitted it, the same request, presented in time under the
      capability, policy and provenance it was escalated under, is permitted when the capability covers it live. */
  lemma PermittedReentry(k: Config, s: State, c: Call, id: string, cap: Capability)
    requires Presents(k, c, id) && ReentryReady(k, s, c, id, cap) && s.grants.cells[id].grant.terms.capability != ""
    requires Registry.GetCap(c.caps, s.grants.cells[id].grant.terms.capability) == Some(cap)
    ensures TheRuling(k, s, c).verdict == Permit && TheRuling(k, s, c).effect == Redeems(id)
  {
    assert ReenterCapability(k, s, c, Who(c), Parse(Canon(c)), id) == Some(cap);
    ReenterRulesPermit(k, s, c, id);
    RulingsAreLawful(k, s, c);
  }

  /** A reserved request of a principal whose strongest capability is active and whose context, if required, is bound. */
  predicate ReservedUnder(k: Config, s: State, e: Call, cap: Capability) {
    && e.op == Evaluate && Authentic(e) && e.newId !in s.escalations
    && Parse(Canon(e)).Asked? && !PolicyBlocks(k, s.policy) && NeedsOwner(e)
    && EvaluateCapability(k, e, Who(e), Parse(Canon(e))) == Some(cap) && cap.id != ""
    && cap.principal == Who(e) && cap.Active(e.now) && (k.requireContext ==> SituationOf(k, e).ContextValid())
  }

  /** The Owner's permit on this escalation, under an active R-DEC capability. */
  predicate OwnersPermit(k: Config, o: Call, id: string) {
    && o.op == Decide && Authentic(o) && Who(o) == OWNER && Holds(o.caps, OWNER, RDec, o.now)
    && Get(Canon(o), "owner_decision") == JStr("permit") && k.str(Get(Canon(o), "escalation_id")) == id
  }

  /** r repeats the request of e. */
  predicate Repeats(e: Call, r: Call) {
    Authentic(e) && Authentic(r) && Who(e) == Who(r) && Canon(e) - PER_MESSAGE == Canon(r) - PER_MESSAGE
  }

  /** r presents the request of e again, in time, under the same capability and provenance, and is covered live. */
  predicate CoveredAgain(k: Config, e: Call, r: Call, cap: Capability) {
    && Repeats(e, r) && Presents(k, r, e.newId) && r.now < e.now + k.grantTtl
    && r.provenance.Matches? && r.provenance.identity == e.provenance.Identity()
    && Registry.GetCap(r.caps, cap.id) == Some(cap) && Parse(Canon(r)).Asked?
    && Covers(cap, Asks(r), r.now) && (k.requireContext ==> MandateCovers(Asks(r), SituationOf(k, r)))
    && Recorded(r) && r.append.hash != ""
  }

  /** What evaluate rules on such a request. */
  lemma EscalatedReserved(k: Config, s: State, e: Call, cap: Capability)
    requires ReservedUnder(k, s, e, cap)
    ensures var r := Ruled(k, s, e);
            && r.effect.Escalates? && r.escalation == Some(e.newId)
            && r.effect.grant.terms == TermsOf(k, s.policy, Canon(e), Who(e), Parse(Canon(e)), Some(cap), e.provenance.Identity())
            && (r.effect.grant.reason == Grants.MandatoryAction || r.effect.grant.reason == Grants.MandatoryRisk)
            && r.effect.grant.expires == e.now + k.grantTtl
  {
    SeenOnlyObserves(k, s, e);
    DispositionExactlyWhen(Some(cap), AskOf(Who(e), Parse(Canon(e))), false, SituationOf(k, e));
  }

  /** A filed escalation stays as filed, whether or not the ESCALATE record could be appended. */
  lemma AfterFiling(k: Config, s: State, e: Call)
    requires Aligned(s) && Ruled(k, s, e).effect.Escalates?
    ensures var t, r := Gated(k, s, e).0, Ruled(k, s, e); var id := e.newId;
            && Filed(t, id) && t.escalations[id] == r.effect.record && t.grants.cells[id].grant == r.effect.grant
            && t.escalations[id].status == Escalations.Pending && t.escalations[id].principal == r.effect.grant.terms.principal
            && !t.grants.cells[id].grant.consumed
    ensures Gated(k, s, e).0.policy == s.policy && Aligned(Gated(k, s, e).0)
  {
    SeenOnlyObserves(k, s, e);
    RuledLawful(k, s, e);
    GrantParts(k, s, e);
    EscalationParts(k, s, e);
    PolicyParts(k, s, e);
    CallAligned(k, s, e);
    UnconsumeKeepsBinding(Applied(k, s, e).grants, Ruled(k, s, e).escalation, Applied(k, s, e), e.newId);
  }

  lemma PolicyParts(k: Config, s: State, c: Call)
    requires !Ruled(k, s, c).effect.Installs?
    ensures Gated(k, s, c).0.policy == s.policy
  {
    SeenOnlyObserves(k, s, c);
    ConcludeKeepsPolicy(k, Seen(k, s, c), c, Ruled(k, s, c), Noticed(k, s, c).1);
  }

  lemma ConcludeKeepsPolicy(k: Config, s: State, c: Call, r: Ruling, observation: Option<nat>)
    requires !r.effect.Installs?
    ensures Conclude(k, s, c, r, observation).0.policy == s.policy
  {
  }

  /** The Owner's permit reaches record and grant, whether or not its own record could be appended. */
  lemma AfterPermit(k: Config, s: State, o: Call, id: string)
    requires OwnersPermit(k, o, id)
    requires Filed(s, id) && s.escalations[id].status == Escalations.Pending && !s.grants.cells[id].grant.consumed
    ensures var t := Gated(k, s, o).0;
            && Filed(t, id)
            && t.escalations[id] == s.escalations[id].(status := Escalations.Decided, ownerDecision := Some("permit"),
                                                       ownerPrincipal := Some(OWNER))
            && t.grants.cells[id].grant == s.grants.cells[id].grant.(ownerDecision := "permit")
            && t.policy == s.policy
  {
    SeenOnlyObserves(k, s, o);
    DecideRuling(k, Seen(k, s, o), o, id);
    GrantParts(k, s, o);
    EscalationParts(k, s, o);
    PolicyParts(k, s, o);
  }

  lemma DecideRuling(k: Config, s: State, o: Call, id: string)
    requires OwnersPermit(k, o, id)
    requires Filed(s, id) && s.escalations[id].status == Escalations.Pending
    ensures TheRuling(k, s, o).effect == Decides(id, "permit", OWNER)
    ensures TheRuling(k, s, o).verdict == Deny && TheRuling(k, s, o).escalation == Some(id)
  {
  }

  lemma RepeatedFields(k: Config, e: Call, r: Call)
    requires Repeats(e, r)
    ensures Parse(Canon(e)) == Parse(Canon(r)) && k.PayloadHash(Canon(e)) == k.PayloadHash(Canon(r))
    ensures k.TextOr(Get(Canon(e), "agent_id")) == k.TextOr(Get(Canon(r), "agent_id"))
    ensures k.TextOr(Get(Canon(e), "request_id")) == k.TextOr(Get(Canon(r), "request_id"))
  {
    SameFields(Canon(e), Canon(r), "action_type");
    SameFields(Canon(e), Canon(r), "domain");
    SameFields(Canon(e), Canon(r), "risk_level");
    SameFields(Canon(e), Canon(r), "agent_id");
    SameFields(Canon(e), Canon(r), "request_id");
  }

  lemma RepeatIsPermitted(k: Config, s: State, e: Call, r: Call, cap: Capability, grant: Grants.Grant)
    requires CoveredAgain(k, e, r, cap) && RecordsReady(s, r, e.newId) && !PolicyBlocks(k, s.policy)
    requires s.grants.cells[e.newId].grant == grant.(ownerDecision := "permit") && cap.id != "" && Parse(Canon(e)).Asked?
    requires grant.terms == TermsOf(k, s.policy, Canon(e), Who(e), Parse(Canon(e)), Some(cap), e.provenance.Identity())
    requires grant.reason == Grants.MandatoryAction || grant.reason == Grants.MandatoryRisk
    ensures Gated(k, s, r).1.verdict == Permit && Gated(k, s, r).1.escalation == Some(e.newId)
  {
    RepeatedFields(k, e, r);
    SeenOnlyObserves(k, s, r);
    PermittedReentry(k, Seen(k, s, r), r, e.newId, cap);
    RedemptionPermits(k, s, r, e.newId);
  }

  lemma RedemptionPermits(k: Config, s: State, r: Call, id: string)
    requires Ruled(k, s, r).verdict == Permit && Ruled(k, s, r).effect == Redeems(id) && Recorded(r) && r.append.hash != ""
    ensures Gated(k, s, r).1.verdict == Permit && Gated(k, s, r).1.escalation == Some(id)
  {
    RuledLawful(k, s, r);
    DecisionParts(k, s, r);
  }

  // ---------------------------------------------------------------- calls of others in between

  /** Policy and this escalation, record and grant, are as before. */
  predicate LeftAlone(s: State, t: State, id: string) {
    && t.policy == s.policy
    && (Filed(s, id) ==>
          && Filed(t, id) && t.escalations[id] == s.escalations[id]
          && t.grants.cells[id].grant == s.grants.cells[id].grant)
  }

  /** The call kept the policy and its decision does not name the escalation. */
  predicate Quiet(s: State, t: State, d: Decision, id: string) {
    t.policy == s.policy && d.escalation != Some(id)
  }

  lemma EffectElsewhere(k: Config, s: State, c: Call, r: Ruling, id: string)
    requires Lawful(k, s, c, r) && Aligned(s) && Filed(s, id) && r.escalation != Some(id)
    ensures var a := Apply(s, r.effect, c.now);
            && Filed(a, id) && a.escalations[id] == s.escalations[id] && a.grants.cells[id] == s.grants.cells[id]
  {
  }

  lemma RollbackElsewhere(s: State, undo: Option<string>, id: string)
    requires id in s.grants.cells && undo != Some(id)
    ensures var t := RolledBack(s, undo); id in t.grants.cells && t.grants.cells[id] == s.grants.cells[id]
  {
  }

  /** Only a call whose decision names an escalation touches its record or its grant. */
  lemma QuietCallLeavesAlone(k: Config, s: State, c: Call, id: string)
    requires Aligned(s)
    ensures Quiet(s, Gated(k, s, c).0, Gated(k, s, c).1, id) ==> LeftAlone(s, Gated(k, s, c).0, id)
  {
    var s', r, a := Seen(k, s, c), Ruled(k, s, c), Applied(k, s, c);
    DecisionParts(k, s, c);
    if Filed(s, id) && r.escalation != Some(id) {
      SeenOnlyObserves(k, s, c);
      RuledLawful(k, s, c);
      EffectElsewhere(k, s', c, r, id);
      GrantParts(k, s, c);
      EscalationParts(k, s, c);
      RollbackElsewhere(a, r.escalation, id);
    }
  }

  predicate QuietLeavesAlone(m: Machine, s: State, c: Call, id: string) {
    Aligned(s) && Quiet(s, m(s, c).0, m(s, c).1, id) ==> LeftAlone(s, m(s, c).0, id)
  }

  ghost predicate LeavesQuiet(m: Machine) {
    forall s: State, c: Call, id: string :: QuietLeavesAlone(m, s, c, id)
  }

  lemma MediatorLeavesQuiet(k: Config)
    ensures LeavesQuiet(Mediates(k))
  {
    forall s: State, c: Call, id: string ensures QuietLeavesAlone(Mediates(k), s, c, id) {
      if Aligned(s) { QuietCallLeavesAlone(k, s, c, id); }
    }
  }

  predicate QuietAt(m: Machine, start: State, calls: seq<Call>, x: nat, id: string)
    requires x < |calls|
  {
    Quiet(Before(m, start, calls, x), Before(m, start, calls, x + 1), DecisionAt(m, start, calls, x), id)
  }

  /** The calls from i to before j are all quiet about the escalation. */
  predicate QuietWithin(m: Machine, start: State, calls: seq<Call>, i: nat, j: nat, id: string)
    requires j <= |calls|
  {
    forall x: nat {:trigger QuietAt(m, start, calls, x, id)} | i <= x < j :: QuietAt(m, start, calls, x, id)
  }

  lemma LeftAloneOn(s: State, t: State, u: State, id: string)
    requires LeftAlone(s, t, id) && LeftAlone(t, u, id)
    ensures LeftAlone(s, u, id)
  {
  }

  lemma QuietStep(m: Machine, start: State, calls: seq<Call>, x: nat, id: string)
    requires LeavesQuiet(m) && KeepsAligned(m) && Aligned(start) && x < |calls| && QuietAt(m, start, calls, x, id)
    ensures LeftAlone(Before(m, start, calls, x), Before(m, start, calls, x + 1), id)
  {
    RunAligned(m, start, calls, x);
    assert QuietLeavesAlone(m, Before(m, start, calls, x), calls[x], id);
  }

  lemma NextLeftAlone(m: Machine, start: State, calls: seq<Call>, a: nat, id: string)
    requires a < |calls|
    ensures LeftAlone(m(Before(m, start, calls, a), calls[a]).0, Before(m, start, calls, a + 1), id)
  {
  }

  /** From the state a call leaves to the state before a later one, with quiet calls between. */
  lemma {:induction false} QuietAfter(m: Machine, start: State, calls: seq<Call>, a: nat, b: nat, id: string)
    requires LeavesQuiet(m) && KeepsAligned(m) && Aligned(start) && a < b < |calls|
    requires QuietWithin(m, start, calls, a + 1, b, id)
    ensures LeftAlone(m(Before(m, start, calls, a), calls[a]).0, Before(m, start, calls, b), id)
    decreases b
  {
    if b == a + 1 {
      NextLeftAlone(m, start, calls, a, id);
    } else {
      assert QuietAt(m, start, calls, b - 1, id);
      QuietAfter(m, start, calls, a, b - 1, id);
      QuietStep(m, start, calls, b - 1, id);
      LeftAloneOn(m(Before(m, start, calls, a), calls[a]).0, Before(m, start, calls, b - 1), Before(m, start, calls, b), id);
    }
  }

  /** The protocol, state by state: escalated in s, permitted in s1, presented again in s2. */
  lemma CompletesWhenLeftAlone(k: Config, s: State, e: Call, s1: State, o: Call, s2: State, r: Call, cap: Capability)
    requires Aligned(s) && ReservedUnder(k, s, e, cap) && OwnersPermit(k, o, e.newId) && CoveredAgain(k, e, r, cap)
    requires LeftAlone(Gated(k, s, e).0, s1, e.newId) && LeftAlone(Gated(k, s1, o).0, s2, e.newId)
    ensures Gated(k, s2, r).1.verdict == Permit && Gated(k, s2, r).1.escalation == Some(e.newId)
  {
    EscalatedReserved(k, s, e, cap);
    AfterFiling(k, s, e);
    RuledLawful(k, s, e);
    AfterPermit(k, s1, o, e.newId);
    RepeatedFields(k, e, r);
    RepeatIsPermitted(k, s2, e, r, cap, Ruled(k, s, e).effect.grant);
  }

  /** The protocol completes: a reserved request is escalated, later the Owner permits it, and later still the same
      request, presented before the grant expires under the same capability, policy and provenance, is permitted --
      whatever calls come in between, as long as they keep the policy and do not name the escalation. */
  lemma ReservedRequestCompletes(k: Config, start: State, calls: seq<Call>, a: nat, b: nat, c: nat, cap: Capability)
    requires Aligned(start) && a < b < c < |calls|
    requires ReservedUnder(k, Before(Mediates(k), start, calls, a), calls[a], cap)
    requires OwnersPermit(k, calls[b], calls[a].newId) && CoveredAgain(k, calls[a], calls[c], cap)
    requires QuietWithin(Mediates(k), start, calls, a + 1, b, calls[a].newId)
    requires QuietWithin(Mediates(k), start, calls, b + 1, c, calls[a].newId)
    ensures DecisionAt(Mediates(k), start, calls, c).verdict == Permit
    ensures DecisionAt(Mediates(k), start, calls, c).escalation == Some(calls[a].newId)
  {
    var m := Mediates(k);
    MediatorLeavesQuiet(k);
    MediatorTraces(k);
    RunAligned(m, start, calls, a);
    QuietAfter(m, start, calls, a, b, calls[a].newId);
    QuietAfter(m, start, calls, b, c, calls[a].newId);
    CompletesWhenLeftAlone(k, Before(m, start, calls, a), calls[a], Before(m, start, calls, b), calls[b],
                           Before(m, start, calls, c), calls[c], cap);
  }

  // ---------------------------------------------------------------- with the real authenticator

  /** What reaches the authenticator: a call that is turned away before leaves it alone. */
  function Reaches(c: Call): bool {
    c.available && c.snapshot.Some?
  }

  function AsRequests(calls: seq<Call>): seq<Authentication.Request> {
    seq(|calls|, i requires 0 <= i < |calls| =>
      Authentication.Request(if Reaches(calls[i]) then calls[i].snapshot.value else map[], calls[i].now))
  }

  /** Every answer a call gets from its authenticator is that of Authenticator.authenticate over this key ring. */
  predicate ReallyAuthenticated(l: Authentication.Limits, ring: Authentication.KeyRing, calls: seq<Call>) {
    forall i | 0 <= i < |calls| && Reaches(calls[i]) ::
      var r := Authentication.ResultAt(l, ring, AsRequests(calls), i);
      calls[i].authn == if r.rule == Authentication.RAISED then AuthnRaises else Identified(r.ok, r.principal, r.rule)
  }

  /** One signed request gets at most one PERMIT, through any of the seven calls: with the real authenticator, an
      ideal HMAC and a forward clock, two PERMITs of one principal never carry the same MAC. */
  lemma SignedRequestPermitsOnce(k: Config, l: Authentication.Limits, ring: Authentication.KeyRing, start: State,
                                 calls: seq<Call>, i: nat, j: nat)
    requires ring.Ideal() && ReallyAuthenticated(l, ring, calls) && i < j < |calls|
    requires forall a, b :: 0 <= a < b < |calls| ==> calls[a].now <= calls[b].now
    requires FiniteSnapshot(calls[i]) && FiniteSnapshot(calls[j])
    requires DecisionAt(Mediates(k), start, calls, i).verdict == Permit && DecisionAt(Mediates(k), start, calls, j).verdict == Permit
    ensures Authentic(calls[i]) && Authentic(calls[j])
    ensures Who(calls[i]) == Who(calls[j]) ==> Get(Canon(calls[i]), "mac") != Get(Canon(calls[j]), "mac")
  {
    PermitExplained(k, Before(Mediates(k), start, calls, i), calls[i]);
    PermitExplained(k, Before(Mediates(k), start, calls, j), calls[j]);
    AuthenticOnce(l, ring, calls, i, j);
  }

  lemma AuthenticOnce(l: Authentication.Limits, ring: Authentication.KeyRing, calls: seq<Call>, i: nat, j: nat)
    requires ring.Ideal() && ReallyAuthenticated(l, ring, calls) && i < j < |calls|
    requires forall a, b :: 0 <= a < b < |calls| ==> calls[a].now <= calls[b].now
    requires Authentic(calls[i]) && Authentic(calls[j]) && FiniteSnapshot(calls[i]) && FiniteSnapshot(calls[j])
    ensures Who(calls[i]) == Who(calls[j]) ==> Get(Canon(calls[i]), "mac") != Get(Canon(calls[j]), "mac")
  {
    var reqs := AsRequests(calls);
    assert Reaches(calls[i]) && Reaches(calls[j]);
    assert forall a :: 0 <= a < |calls| ==> reqs[a].now == calls[a].now;
    if Who(calls[i]) == Who(calls[j]) {
      Authentication.SignedRequestAcceptedOnce(l, ring, reqs, i, j);
    }
  }
}
