/** One gated call of the mediator, part by part: what it does to each store, and what it returns. */
module KernelSteps {
  import opened Domain
  import opened JsonValues
  import opened Authorization
  import opened Kernel
  import opened Rulings
  import Grants
  import Escalations
  import Evidence
  import Observations

  // ---------------------------------------------------------------- one call, part by part

  /** The state an authenticated call decides in. */
  function Seen(k: Config, s: State, c: Call): State {
    Noticed(k, s, c).0
  }

  function Ruled(k: Config, s: State, c: Call): Ruling {
    TheRuling(k, Seen(k, s, c), c)
  }

  function Applied(k: Config, s: State, c: Call): State {
    Apply(Seen(k, s, c), Ruled(k, s, c).effect, c.now)
  }

  /** The audit record of the call was built and appended. */
  predicate Recorded(c: Call) {
    c.recordBuilds && c.append.Returned?
  }

  predicate Permitted(c: Call, r: Ruling) {
    r.verdict == Permit && Recorded(c) && c.append.hash != ""
  }

  lemma SeenOnlyObserves(k: Config, s: State, c: Call)
    ensures var s' := Seen(k, s, c);
            && s'.policy == s.policy && s'.escalations == s.escalations && s'.grants == s.grants
            && s'.evidence == s.evidence && s'.audit == s.audit
  {
  }

  lemma RuledLawful(k: Config, s: State, c: Call)
    ensures Lawful(k, Seen(k, s, c), c, Ruled(k, s, c))
  {
    RulingsAreLawful(k, Seen(k, s, c), c);
  }

  lemma LawfulIsSettled(k: Config, s: State, c: Call)
    ensures Settled(Ruled(k, s, c)) == Ruled(k, s, c)
  {
    RuledLawful(k, s, c);
  }

  /** The decision a call returns, in terms of its ruling. */
  lemma DecisionParts(k: Config, s: State, c: Call)
    ensures var d, r := Gated(k, s, c).1, Ruled(k, s, c);
            && (d.verdict == Permit <==> Permitted(c, r))
            && d.escalation == r.escalation && d.bound == r.bound
            && (d.verdict == Permit ==> d.grant == r.grant && d.auditHash.Some?)
            && (d.verdict != Permit ==> d.grant.None?)
  {
    LawfulIsSettled(k, s, c);
  }

  lemma GrantParts(k: Config, s: State, c: Call)
    ensures var t, a, r := Gated(k, s, c).0, Applied(k, s, c), Ruled(k, s, c);
            t.grants == if Recorded(c) then a.grants else RolledBack(a, r.escalation).grants
  {
    LawfulIsSettled(k, s, c);
  }

  lemma EscalationParts(k: Config, s: State, c: Call)
    ensures var t, a, r := Gated(k, s, c).0, Applied(k, s, c), Ruled(k, s, c);
            t.escalations == if Permitted(c, r) && r.effect.Redeems? then Escalations.ResolveIn(a.escalations, r.effect.id)
                             else a.escalations
  {
    LawfulIsSettled(k, s, c);
  }

  lemma AuditParts(k: Config, s: State, c: Call)
    ensures Gated(k, s, c).0.audit == s.audit + if Recorded(c) then [EntryOf(k, Ruled(k, s, c), Noticed(k, s, c).1)] else []
  {
    LawfulIsSettled(k, s, c);
    SeenOnlyObserves(k, s, c);
    ConcludeAudit(k, Seen(k, s, c), c, Ruled(k, s, c), Noticed(k, s, c).1);
  }

  lemma ConcludeAudit(k: Config, s: State, c: Call, r: Ruling, observation: Option<nat>)
    requires Settled(r) == r
    ensures Conclude(k, s, c, r, observation).0.audit == s.audit + if Recorded(c) then [EntryOf(k, r, observation)] else []
  {
    EffectLeavesLogs(s, r.effect, c.now);
    assert s.audit + [] == s.audit;
  }

  lemma EffectLeavesLogs(s: State, effect: Effect, now: int)
    ensures Apply(s, effect, now).observations == s.observations && Apply(s, effect, now).audit == s.audit
  {
  }

  lemma ObservationParts(k: Config, s: State, c: Call)
    ensures Gated(k, s, c).0.observations == Seen(k, s, c).observations
  {
    EffectLeavesLogs(Seen(k, s, c), Ruled(k, s, c).effect, c.now);
    LawfulIsSettled(k, s, c);
    ConcludeLeavesObservations(k, Seen(k, s, c), c, Ruled(k, s, c), Noticed(k, s, c).1);
  }

  lemma ConcludeLeavesObservations(k: Config, s: State, c: Call, r: Ruling, observation: Option<nat>)
    ensures Conclude(k, s, c, r, observation).0.observations == s.observations
  {
    EffectLeavesLogs(s, r.effect, c.now);
  }

  // ---------------------------------------------------------------- escalation records

  /** Every call moves every escalation record forward, or leaves it alone. */
  lemma CallAdvancesEscalations(k: Config, s: State, c: Call)
    requires Escalations.WellFormed(s.escalations)
    ensures var t := Gated(k, s, c).0;
            Escalations.WellFormed(t.escalations) && Escalations.AllFollow(s.escalations, t.escalations)
  {
    var r := Ruled(k, s, c);
    SeenOnlyObserves(k, s, c);
    RuledLawful(k, s, c);
    EscalationParts(k, s, c);
    EffectAdvancesEscalations(k, Seen(k, s, c), c, r);
    if r.effect.Redeems? {
      ResolveAdvances(s.escalations, Applied(k, s, c).escalations, r.effect.id);
    }
  }

  lemma ResolveAdvances(s: Escalations.Items, a: Escalations.Items, id: string)
    requires Escalations.WellFormed(a) && Escalations.AllFollow(s, a)
    ensures Escalations.WellFormed(Escalations.ResolveIn(a, id)) && Escalations.AllFollow(s, Escalations.ResolveIn(a, id))
  {
    Escalations.AfterAdvances(a, Escalations.Resolve(id));
    Escalations.FollowsOn(s, a, Escalations.ResolveIn(a, id));
  }

  lemma EffectAdvancesEscalations(k: Config, s: State, c: Call, r: Ruling)
    requires Escalations.WellFormed(s.escalations) && LawfulEffect(k, s, c, r)
    ensures var a := Apply(s, r.effect, c.now);
            Escalations.WellFormed(a.escalations) && Escalations.AllFollow(s.escalations, a.escalations)
  {
    match r.effect
    case Escalates(e, grant) =>
      Escalations.AfterAdvances(s.escalations, Escalations.File(e.id, e.request, e.principal, e.payload, e.reason));
    case Decides(id, decision, owner) =>
      Escalations.AfterAdvances(s.escalations, Escalations.Decide(id, decision, owner));
    case _ =>
  }

  /** A PERMIT that names an escalation found it decided and leaves it resolved. */
  lemma PermitResolves(k: Config, s: State, c: Call, id: string)
    requires Gated(k, s, c).1.verdict == Permit && Gated(k, s, c).1.escalation == Some(id)
    ensures Ruled(k, s, c).effect == Redeems(id)
    ensures id in s.escalations && s.escalations[id].status == Escalations.Decided
    ensures var t := Gated(k, s, c).0; id in t.escalations && t.escalations[id].status == Escalations.Resolved
  {
    DecisionParts(k, s, c);
    RuledLawful(k, s, c);
    SeenOnlyObserves(k, s, c);
    RedemptionFindsDecided(k, Seen(k, s, c), c, Ruled(k, s, c), id);
    EscalationParts(k, s, c);
  }

  lemma RedemptionFindsDecided(k: Config, s: State, c: Call, r: Ruling, id: string)
    requires Lawful(k, s, c, r) && r.verdict == Permit && r.escalation == Some(id)
    ensures r.effect == Redeems(id) && id in s.escalations && s.escalations[id].status == Escalations.Decided
  {
  }

  // ---------------------------------------------------------------- the audit log

  /** The entry tells of this decision: who, for which request, under which escalation. */
  predicate Tells(k: Config, entry: AuditEntry, c: Call, d: Decision) {
    && entry.granted && entry.verdict == Permit && Authentic(c)
    && entry.bound == d.bound && entry.bound == Some(Who(c)) && entry.escalation == d.escalation && entry.rules == d.rules
    && entry.payload == k.PayloadHash(Canon(c)) && entry.request == Get(Canon(c), "request_id")
    && d.grant == Some(NoteOf(Canon(c), Who(c)))
  }

  /** t is s with at most one entry more. */
  predicate AtMostOneMore(s: seq<AuditEntry>, t: seq<AuditEntry>) {
    t == s || (|t| == |s| + 1 && s == t[..|s|])
  }

  /** The log grows by at most one entry, and that entry grants exactly when the call permits. */
  predicate Logged(k: Config, s: seq<AuditEntry>, c: Call, t: seq<AuditEntry>, d: Decision) {
    && AtMostOneMore(s, t)
    && (d.verdict == Permit ==> |t| == |s| + 1 && Tells(k, t[|s|], c, d))
    && (d.verdict != Permit && |t| > |s| ==> !t[|s|].granted)
  }

  lemma PermitRules(k: Config, s: State, c: Call)
    ensures Gated(k, s, c).1.verdict == Permit ==> Gated(k, s, c).1.rules == Ruled(k, s, c).rules
  {
    LawfulIsSettled(k, s, c);
  }

  /** SHA-256 hex digests are not empty, so neither is what the audit log returns. */
  predicate HashNotEmpty(c: Call) {
    c.append.Returned? ==> c.append.hash != ""
  }

  lemma CallIsLogged(k: Config, s: State, c: Call)
    requires HashNotEmpty(c)
    ensures Logged(k, s.audit, c, Gated(k, s, c).0.audit, Gated(k, s, c).1)
  {
    AuditParts(k, s, c);
    DecisionParts(k, s, c);
    RuledLawful(k, s, c);
    PermitRules(k, s, c);
  }
}
