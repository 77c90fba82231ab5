/** Where authority comes from: every re-entry PERMIT traces back to one evaluate and one Owner decision. */
module KernelOrigin {
  import opened Domain
  import opened JsonValues
  import opened Authorization
  import opened Kernel
  import opened Rulings
  import opened KernelSteps
  import opened KernelRuns
  import Grants
  import Escalations

  // ---------------------------------------------------------------- what a PERMIT means at the moment it is given

  /** What a well-formed call asks for. */
  function Asks(c: Call): Ask
    requires Authentic(c) && Parse(Canon(c)).Asked?
  {
    var p := Parse(Canon(c));
    Ask(Who(c), p.action, p.domain, p.risk)
  }

  /** The hash of everything in the request but nonce, timestamp, MAC and escalation id. */
  function ContentHash(k: Config, c: Call): string
    requires Authentic(c)
  {
    k.sha(Canon(c) - {"nonce", "timestamp", "mac", "escalation_id"})
  }

  /** A field of the request as text; what is missing, empty or zero reads as the empty string. */
  function TextField(k: Config, c: Call, key: string): string
    requires Authentic(c)
  {
    if Get(Canon(c), key).Truthy() then k.str(Get(Canon(c), key)) else ""
  }

  /** At this moment: the request is well formed, policy serves, provenance matches, and a registered active
      capability (and, if required, the bound mandate) covers the request. */
  ghost predicate LivePermit(k: Config, s: State, c: Call) {
    && Authentic(c) && Parse(Canon(c)).Asked? && !PolicyBlocks(k, s.policy) && c.provenance.Matches?
    && (exists cap :: cap in c.caps && Covers(cap, Asks(c), c.now))
    && (k.requireContext ==> MandateCovers(Asks(c), SituationOf(k, c)))
  }

  /** A well-formed request of a non-owner for COMMIT, or at HIGH risk. */
  predicate NeedsOwner(c: Call) {
    Authentic(c) && Parse(Canon(c)).Asked? && Who(c) != "owner" &&
    (Parse(Canon(c)).action == Commit || Parse(Canon(c)).risk == High)
  }

  lemma LiveChecksMean(k: Config, s: State, c: Call, skip: bool)
    requires LiveChecks(k, s, c, skip)
    ensures LivePermit(k, s, c)
    ensures !skip ==> !NeedsOwner(c)
  {
    var ask := AskOf(Who(c), Parse(Canon(c)));
    var cap :| cap in c.caps && CheckCapability(Some(cap), ask, skip, SituationOf(k, c)).decision == Allow;
    DispositionExactlyWhen(Some(cap), ask, skip, SituationOf(k, c));
    ReservedMeans(ask);
    assert Covers(cap, ask, c.now);
  }

  /** What a PERMIT says about its own call. */
  ghost predicate Explained(k: Config, s: State, c: Call, d: Decision) {
    d.verdict == Permit ==>
      && LivePermit(k, s, c)
      && (d.escalation.None? ==> c.op == Evaluate && !NeedsOwner(c))
      && (d.escalation.Some? ==> c.op == Reenter)
  }

  lemma PermitExplained(k: Config, s: State, c: Call)
    ensures Explained(k, s, c, Gated(k, s, c).1)
  {
    var s', r := Seen(k, s, c), Ruled(k, s, c);
    DecisionParts(k, s, c);
    RuledLawful(k, s, c);
    SeenOnlyObserves(k, s, c);
    if r.verdict == Permit {
      if r.effect == Nothing {
        LiveChecksMean(k, s', c, false);
      } else {
        var id := r.effect.id;
        LiveChecksMean(k, s', c, Skips(Some(s'.grants.cells[id].grant), Parse(Canon(c))));
      }
    }
  }

  // ---------------------------------------------------------------- what calls do to one escalation

  /** What never changes about a grant once reserved. */
  predicate SameBinding(a: Grants.Grant, b: Grants.Grant) {
    a.escalation == b.escalation && a.terms == b.terms && a.reason == b.reason && a.expires == b.expires
  }

  predicate Filed(s: State, id: string) {
    id in s.escalations && id in s.grants.cells
  }

  /** The two stores know the same escalations. */
  predicate Aligned(s: State) {
    s.escalations.Keys == s.grants.cells.Keys
  }

  /** c filed this escalation: the grant is bound to the caller and the request of c. */
  predicate FiledBy(k: Config, c: Call, d: Decision, id: string, g: Grants.Grant) {
    && c.op == Evaluate && Authentic(c) && d.escalation == Some(id)
    && g.terms.principal == Who(c) && g.terms.payload == ContentHash(k, c) && g.terms.request == TextField(k, c, "request_id")
  }

  /** c is the Owner's decision on this escalation, made under an active R-DEC capability. */
  predicate OwnerDecides(k: Config, c: Call, id: string, decision: string) {
    && c.op == Decide && Authentic(c) && Who(c) == OWNER && Holds(c.caps, OWNER, RDec, c.now)
    && Get(Canon(c), "owner_decision") == JStr(decision) && k.str(Get(Canon(c), "escalation_id")) == id
  }

  /** One escalation across one call: filed by it, or already there, keeping its binding, with a decision that only
      the Owner's call can change. */
  predicate Traced(k: Config, s: State, c: Call, t: State, d: Decision, id: string) {
    Filed(t, id) ==>
      if !Filed(s, id) then FiledBy(k, c, d, id, t.grants.cells[id].grant) && t.grants.cells[id].grant.ownerDecision == ""
      else
        var before, after := s.grants.cells[id].grant, t.grants.cells[id].grant;
        && SameBinding(before, after)
        && (after.ownerDecision != before.ownerDecision ==>
              OwnerDecides(k, c, id, after.ownerDecision) && Settles(s, t, id))
  }

  /** The record of the escalation goes from pending to decided. */
  predicate Settles(s: State, t: State, id: string) {
    && id in s.escalations && s.escalations[id].status == Escalations.Pending
    && id in t.escalations && t.escalations[id].status != Escalations.Pending
  }

  lemma UnconsumeKeepsBinding(g: Grants.GrantState, undo: Option<string>, s: State, id: string)
    requires s.grants == g && id in g.cells
    ensures var after := RolledBack(s, undo).grants;
            id in after.cells && SameBinding(g.cells[id].grant, after.cells[id].grant)
            && after.cells[id].grant.ownerDecision == g.cells[id].grant.ownerDecision
  {
  }

  lemma RollbackKeepsKeys(s: State, undo: Option<string>)
    ensures RolledBack(s, undo).grants.cells.Keys == s.grants.cells.Keys
  {
  }

  lemma EffectTraced(k: Config, s: State, c: Call, r: Ruling, id: string)
    requires LawfulEffect(k, s, c, r) && Aligned(s) && Filed(s, id)
    ensures EffectKeeps(k, s, c, Apply(s, r.effect, c.now), id)
  {
    match r.effect
    case Escalates(record, grant) => FilingTraced(k, s, c, r, record, grant, id);
    case Decides(one, decision, owner) => DecisionTraced(k, s, c, r, one, decision, owner, id);
    case _ =>
  }

  /** What an effect does to an escalation that is already there. */
  predicate EffectKeeps(k: Config, s: State, c: Call, a: State, id: string) {
    Filed(s, id) ==>
      && Filed(a, id) && SameBinding(s.grants.cells[id].grant, a.grants.cells[id].grant)
      && (a.grants.cells[id].grant.ownerDecision != s.grants.cells[id].grant.ownerDecision ==>
            OwnerDecides(k, c, id, a.grants.cells[id].grant.ownerDecision) && Settles(s, a, id))
  }

  lemma FilingTraced(k: Config, s: State, c: Call, r: Ruling, record: Escalations.Escalation, grant: Grants.Grant, id: string)
    requires LawfulFiling(k, s, c, r, record, grant) && Aligned(s) && Filed(s, id)
    ensures EffectKeeps(k, s, c, Apply(s, Escalates(record, grant), c.now), id)
  {
  }

  lemma DecisionTraced(k: Config, s: State, c: Call, r: Ruling, one: string, decision: string, owner: string, id: string)
    requires LawfulDecision(k, s, c, r, one, decision, owner) && Aligned(s) && Filed(s, id)
    ensures EffectKeeps(k, s, c, Apply(s, Decides(one, decision, owner), c.now), id)
  {
  }

  lemma EffectFiles(k: Config, s: State, c: Call, r: Ruling, id: string)
    requires Lawful(k, s, c, r) && Aligned(s) && !Filed(s, id)
    ensures var a := Apply(s, r.effect, c.now);
            Filed(a, id) ==> r.effect.Escalates? && r.effect.record.id == id
                             && a.escalations[id] == r.effect.record && a.grants.cells[id].grant == r.effect.grant
  {
  }

  lemma EffectAligned(k: Config, s: State, c: Call, r: Ruling)
    requires Lawful(k, s, c, r) && Aligned(s)
    ensures Aligned(Apply(s, r.effect, c.now))
  {
  }

  lemma CallKeepsEscalationKeys(k: Config, s: State, c: Call)
    ensures Gated(k, s, c).0.escalations.Keys == Applied(k, s, c).escalations.Keys
  {
    EscalationParts(k, s, c);
  }

  lemma CallKeepsGrantKeys(k: Config, s: State, c: Call)
    ensures Gated(k, s, c).0.grants.cells.Keys == Applied(k, s, c).grants.cells.Keys
  {
    GrantParts(k, s, c);
    RollbackKeepsKeys(Applied(k, s, c), Ruled(k, s, c).escalation);
  }

  lemma CallAligned(k: Config, s: State, c: Call)
    requires Aligned(s)
    ensures Aligned(Gated(k, s, c).0)
  {
    SeenOnlyObserves(k, s, c);
    RuledLawful(k, s, c);
    EffectAligned(k, Seen(k, s, c), c, Ruled(k, s, c));
    CallKeepsEscalationKeys(k, s, c);
    CallKeepsGrantKeys(k, s, c);
  }

  /** From the state after the effect to the state after the call: nothing about the binding moves. */
  lemma FinishTraced(k: Config, s: State, c: Call, id: string)
    requires Filed(Applied(k, s, c), id)
    ensures var a, t := Applied(k, s, c), Gated(k, s, c).0;
            && id in t.grants.cells && SameBinding(a.grants.cells[id].grant, t.grants.cells[id].grant)
            && t.grants.cells[id].grant.ownerDecision == a.grants.cells[id].grant.ownerDecision
  {
    var a := Applied(k, s, c);
    GrantParts(k, s, c);
    UnconsumeKeepsBinding(a.grants, Ruled(k, s, c).escalation, a, id);
  }

  lemma CallTraced(k: Config, s: State, c: Call, id: string)
    requires Aligned(s)
    ensures Traced(k, s, c, Gated(k, s, c).0, Gated(k, s, c).1, id)
  {
    var s', r, a := Seen(k, s, c), Ruled(k, s, c), Applied(k, s, c);
    SeenOnlyObserves(k, s, c);
    RuledLawful(k, s, c);
    CallAligned(k, s, c);
    CallKeepsEscalationKeys(k, s, c);
    DecisionParts(k, s, c);
    EscalationParts(k, s, c);
    if Filed(s, id) {
      EffectTraced(k, s', c, r, id);
      FinishTraced(k, s, c, id);
    } else if Filed(Gated(k, s, c).0, id) {
      EffectAligned(k, s', c, r);
      EffectFiles(k, s', c, r, id);
      FinishTraced(k, s, c, id);
    }
  }

  // ---------------------------------------------------------------- what a redemption found

  /** A permitted re-entry presented what its grant binds, under the Owner's permit. */
  predicate Redeemed(k: Config, s: State, c: Call, d: Decision) {
    d.verdict == Permit && d.escalation.Some? ==>
      var id := d.escalation.value;
      && Filed(s, id) && Authentic(c)
      && s.grants.cells[id].grant.ownerDecision == "permit"
      && s.grants.cells[id].grant.terms.principal == Who(c)
      && s.grants.cells[id].grant.terms.payload == ContentHash(k, c)
      && c.now < s.grants.cells[id].grant.expires && !s.grants.cells[id].grant.consumed
  }

  lemma CallRedeemed(k: Config, s: State, c: Call)
    ensures Redeemed(k, s, c, Gated(k, s, c).1)
  {
    DecisionParts(k, s, c);
    RuledLawful(k, s, c);
    SeenOnlyObserves(k, s, c);
    if Ruled(k, s, c).verdict == Permit && Ruled(k, s, c).escalation.Some? {
      RedemptionFound(k, Seen(k, s, c), c, Ruled(k, s, c), Gated(k, s, c).1);
    }
  }

  lemma RedemptionFound(k: Config, s: State, c: Call, r: Ruling, d: Decision)
    requires Lawful(k, s, c, r) && r.verdict == Permit && r.escalation.Some? && d.escalation == r.escalation
    ensures Redeemed(k, s, c, d)
  {
  }

  // ---------------------------------------------------------------- runs

  ghost predicate KeepsAligned(m: Machine) {
    forall s: State, c: Call :: Aligned(s) ==> Aligned(m(s, c).0)
  }

  ghost predicate TracesAll(k: Config, m: Machine) {
    forall s: State, c: Call, id: string :: Aligned(s) ==> Traced(k, s, c, m(s, c).0, m(s, c).1, id)
  }

  lemma MediatorTraces(k: Config)
    ensures KeepsAligned(Mediates(k)) && TracesAll(k, Mediates(k))
  {
    forall s: State, c: Call | Aligned(s) ensures Aligned(Mediates(k)(s, c).0) {
      CallAligned(k, s, c);
    }
    forall s: State, c: Call, id: string | Aligned(s) ensures Traced(k, s, c, Mediates(k)(s, c).0, Mediates(k)(s, c).1, id) {
      CallTraced(k, s, c, id);
    }
  }

  lemma {:induction false} RunAligned(m: Machine, start: State, calls: seq<Call>, n: nat)
    requires KeepsAligned(m) && Aligned(start) && n <= |calls|
    ensures Aligned(Before(m, start, calls, n))
  {
    if n > 0 {
      RunAligned(m, start, calls, n - 1);
    }
  }

  /** Call x is the one that filed the escalation. */
  predicate FilesAt(m: Machine, start: State, calls: seq<Call>, x: nat, id: string)
    requires x < |calls|
  {
    !Filed(Before(m, start, calls, x), id) && Filed(Before(m, start, calls, x + 1), id)
  }

  /** Call x is the one that decided it. */
  predicate DecidesAt(m: Machine, start: State, calls: seq<Call>, x: nat, id: string)
    requires x < |calls|
  {
    Settles(Before(m, start, calls, x), Before(m, start, calls, x + 1), id)
  }

  /** An escalation is filed once and decided once. */
  lemma FiledAndDecidedOnce(m: Machine, start: State, calls: seq<Call>, x: nat, y: nat, id: string)
    requires AdvancesRecords(m) && KeepsAligned(m) && Aligned(start) && Escalations.WellFormed(start.escalations)
    requires x < y < |calls|
    ensures !(FilesAt(m, start, calls, x, id) && FilesAt(m, start, calls, y, id))
    ensures !(DecidesAt(m, start, calls, x, id) && DecidesAt(m, start, calls, y, id))
  {
    var after, later := Before(m, start, calls, x + 1), Before(m, start, calls, y);
    RecordsAdvance(m, start, calls, x + 1, y);
    RunAligned(m, start, calls, y);
    if id in after.escalations {
      assert Escalations.Follows(after.escalations[id], later.escalations[id]);
    }
  }

  /** Which call filed the escalation, and, once its grant shows a permit, which call of the Owner decided it. */
  lemma {:induction false} Roots(k: Config, m: Machine, start: State, calls: seq<Call>, n: nat, id: string) returns (i: nat, j: nat)
    requires KeepsAligned(m) && TracesAll(k, m) && Aligned(start) && !Filed(start, id) && n <= |calls|
    requires Filed(Before(m, start, calls, n), id)
    ensures var g := Before(m, start, calls, n).grants.cells[id].grant;
            && i < n && FilesAt(m, start, calls, i, id) && FiledBy(k, calls[i], DecisionAt(m, start, calls, i), id, g)
            && (g.ownerDecision == "permit" ==>
                  i < j < n && OwnerDecides(k, calls[j], id, "permit") && DecidesAt(m, start, calls, j, id))
  {
    var s, t := Before(m, start, calls, n - 1), Before(m, start, calls, n);
    RunAligned(m, start, calls, n - 1);
    assert Traced(k, s, calls[n - 1], t, DecisionAt(m, start, calls, n - 1), id);
    if Filed(s, id) {
      i, j := Roots(k, m, start, calls, n - 1, id);
      if s.grants.cells[id].grant.ownerDecision != "permit" {
        j := n - 1;
      }
    } else {
      i, j := n - 1, 0;
    }
  }

  /** Different contents never share a payload hash. */
  ghost predicate CollisionFree(k: Config) {
    forall a, b :: JObj(a).Finite() && JObj(b).Finite() && k.sha(a) == k.sha(b) ==> a == b
  }

  /** A canonical snapshot holds no NaN and no infinity. */
  predicate FiniteSnapshot(c: Call) {
    c.snapshot.Some? ==> JObj(c.snapshot.value).Finite()
  }

  lemma SamePayload(k: Config, a: Call, b: Call)
    requires CollisionFree(k) && FiniteSnapshot(a) && FiniteSnapshot(b) && Authentic(a) && Authentic(b)
    requires k.PayloadHash(Canon(a)) == k.PayloadHash(Canon(b))
    ensures Canon(a) - PER_MESSAGE == Canon(b) - PER_MESSAGE && Parse(Canon(a)) == Parse(Canon(b))
  {
    var x, y := Canon(a) - PER_MESSAGE, Canon(b) - PER_MESSAGE;
    assert x == y;
    SameFields(Canon(a), Canon(b), "action_type");
    SameFields(Canon(a), Canon(b), "domain");
    SameFields(Canon(a), Canon(b), "risk_level");
  }

  lemma SameFields(a: Fields, b: Fields, key: string)
    requires a - PER_MESSAGE == b - PER_MESSAGE && key !in PER_MESSAGE
    ensures Get(a, key) == Get(b, key)
  {
    assert key in a <==> key in a - PER_MESSAGE;
    assert key in b <==> key in b - PER_MESSAGE;
  }

  /** The whole chain of authority behind the PERMIT of call n: call i escalated the same request of the same
      principal, and call j, between them, is the Owner's permit. */
  predicate ChainOfAuthority(k: Config, m: Machine, start: State, calls: seq<Call>, i: nat, j: nat, n: nat, id: string)
    requires n < |calls|
  {
    && i < j < n && Authentic(calls[i]) && Authentic(calls[n])
    && calls[i].op == Evaluate && DecisionAt(m, start, calls, i).escalation == Some(id)
    && Who(calls[i]) == Who(calls[n])
    && Canon(calls[i]) - {"nonce", "timestamp", "mac", "escalation_id"} == Canon(calls[n]) - {"nonce", "timestamp", "mac", "escalation_id"}
    && Parse(Canon(calls[i])) == Parse(Canon(calls[n]))
    && OwnerDecides(k, calls[j], id, "permit")
    && calls[n].op == Reenter
    && FilesAt(m, start, calls, i, id) && DecidesAt(m, start, calls, j, id)
  }

  lemma ChainExists(k: Config, m: Machine, start: State, calls: seq<Call>, n: nat, id: string) returns (i: nat, j: nat)
    requires KeepsAligned(m) && TracesAll(k, m) && Aligned(start) && !Filed(start, id) && n < |calls|
    requires CollisionFree(k) && forall x | 0 <= x < |calls| :: FiniteSnapshot(calls[x])
    requires var d := DecisionAt(m, start, calls, n);
             && d.verdict == Permit && d.escalation == Some(id) && calls[n].op == Reenter
             && Redeemed(k, Before(m, start, calls, n), calls[n], d)
    requires AdvancesRecords(m) && Escalations.WellFormed(start.escalations)
    ensures ChainOfAuthority(k, m, start, calls, i, j, n, id) && OnlyOrigin(m, start, calls, i, j, id)
  {
    i, j := Roots(k, m, start, calls, n, id);
    SamePayload(k, calls[i], calls[n]);
    OriginIsUnique(m, start, calls, i, j, id);
  }

  /** No other call of the run filed or decided the escalation. */
  predicate OnlyOrigin(m: Machine, start: State, calls: seq<Call>, i: nat, j: nat, id: string) {
    forall x: nat | x < |calls| ::
      (FilesAt(m, start, calls, x, id) ==> x == i) && (DecidesAt(m, start, calls, x, id) ==> x == j)
  }

  lemma OriginIsUnique(m: Machine, start: State, calls: seq<Call>, i: nat, j: nat, id: string)
    requires AdvancesRecords(m) && KeepsAligned(m) && Aligned(start) && Escalations.WellFormed(start.escalations)
    requires i < |calls| && j < |calls| && FilesAt(m, start, calls, i, id) && DecidesAt(m, start, calls, j, id)
    ensures OnlyOrigin(m, start, calls, i, j, id)
  {
    forall x: nat | x < |calls|
      ensures (FilesAt(m, start, calls, x, id) ==> x == i) && (DecidesAt(m, start, calls, x, id) ==> x == j)
    {
      if x < i { FiledAndDecidedOnce(m, start, calls, x, i, id); }
      if i < x { FiledAndDecidedOnce(m, start, calls, i, x, id); }
      if x < j { FiledAndDecidedOnce(m, start, calls, x, j, id); }
      if j < x { FiledAndDecidedOnce(m, start, calls, j, x, id); }
    }
  }

  predicate FromScratch(start: State) {
    start.escalations == map[] && start.grants.cells == map[]
  }

  /** The origin of authority. In any sequential run that starts without escalations, every PERMIT is covered live by
      policy, provenance and a registered active capability; and a PERMIT that names an escalation, or that a
      non-owner gets for COMMIT or HIGH risk, traces back to one earlier evaluate by the same principal, with the same
      content outside nonce, timestamp, MAC and escalation id, and to one permit of the Owner between the two; no other call of the run
      filed or decided that escalation. */
  lemma AuthorityHasAnOrigin(k: Config, start: State, calls: seq<Call>, n: nat) returns (i: nat, j: nat)
    requires FromScratch(start) && n < |calls|
    requires CollisionFree(k) && forall x | 0 <= x < |calls| :: FiniteSnapshot(calls[x])
    requires DecisionAt(Mediates(k), start, calls, n).verdict == Permit
    ensures LivePermit(k, Before(Mediates(k), start, calls, n), calls[n])
    ensures var d := DecisionAt(Mediates(k), start, calls, n);
            d.escalation.Some? || NeedsOwner(calls[n]) ==>
              && d.escalation.Some? && ChainOfAuthority(k, Mediates(k), start, calls, i, j, n, d.escalation.value)
              && OnlyOrigin(Mediates(k), start, calls, i, j, d.escalation.value)
  {
    var s, d := Before(Mediates(k), start, calls, n), DecisionAt(Mediates(k), start, calls, n);
    PermitAt(k, s, calls[n], d);
    i, j := 0, 0;
    if d.escalation.Some? {
      MediatorTraces(k);
      MediatorAdvancesRecords(k);
      i, j := ChainExists(k, Mediates(k), start, calls, n, d.escalation.value);
    }
  }

  lemma PermitAt(k: Config, s: State, c: Call, d: Decision)
    requires d == Mediates(k)(s, c).1
    ensures Explained(k, s, c, d) && Redeemed(k, s, c, d)
  {
    PermitExplained(k, s, c);
    CallRedeemed(k, s, c);
  }
}
