/** Capabilities and the capability check: axiomgate_kernel/capability.py and axiomgate_kernel/authorization.py. */
module Authorization {
  import opened Domain
  import opened Mandates

  datatype Capability = Capability(
    id: string,
    principal: string,
    role: Role,
    domains: set<string>,
    actions: set<Action>,
    ceiling: Risk,
    issuedBy: string,
    expiresAt: int,
    transferable: bool,
    delegationDepth: int,
    revokedAt: Option<int>)
  {
    predicate StructurallyValid() {
      issuedBy == "Owner" && !transferable && delegationDepth == 1 && (role == RDec ==> principal == OWNER)
    }

    predicate Expired(now: int) {
      now >= expiresAt
    }

    predicate Active(now: int) {
      StructurallyValid() && !Expired(now) && revokedAt.None?
    }
  }

  datatype Disposition = Allow | Refuse | OwnerMandatory

  /** CapabilityCheck: the disposition, the rules applied, and the frame an audit record quotes. */
  datatype Check = Check(
    decision: Disposition,
    rules: seq<string>,
    capabilityId: Option<string>,
    ceiling: Option<Risk>,
    mandateId: Option<string>,
    provenance: Option<string>)

  /** How the call arose: the clock, and the bound principal context when the kernel requires one. */
  datatype Situation = Situation(requireContext: bool, context: Option<Context>, now: int, reader: Reader)
  {
    predicate ContextValid() {
      context.Some? && context.value.principal != ""
    }

    function Mandate(): Option<Mandate> {
      if context.None? then None else MandateOf(reader, context.value.mandate)
    }
  }

  /** What is asked: who, what, where, how risky. */
  datatype Ask = Ask(principal: string, action: Action, domain: string, risk: Risk)
  {
    /** Needs an Owner decision first. */
    predicate Reserved() {
      principal != OWNER && (OwnerMandatoryAction(action) || risk == High)
    }
  }

  function EffectiveCeiling(cap: Risk, m: Mandate): Risk {
    if cap.Rank() <= m.scope.Ceiling().Rank() then cap else m.scope.Ceiling()
  }

  const ENTERED := ["authz.entered"]

  function InvalidRules(cap: Capability): seq<string> {
    ["authz.capability_invalid"] +
    if cap.transferable then ["authz.transferable"]
    else if cap.delegationDepth != 1 then ["authz.delegation_depth"]
    else if cap.issuedBy != "Owner" then ["authz.not_owner_issued"]
    else if cap.role == RDec && cap.principal != OWNER then ["authz.rdec_not_owner"]
    else []
  }

  /** Why this capability cannot be used by this principal now, scope aside. */
  function Unusable(cap: Capability, principal: string, now: int): Option<seq<string>> {
    if cap.principal != principal then Some(["authz.principal_mismatch"])
    else if !cap.StructurallyValid() then Some(InvalidRules(cap))
    else if cap.revokedAt.Some? then Some(["authz.revoked"])
    else if cap.Expired(now) then Some(["authz.expired"])
    else None
  }

  function ReservedRules(ask: Ask): seq<string> {
    if !ask.Reserved() then []
    else if OwnerMandatoryAction(ask.action) then ["authz.owner_mandatory_action"]
    else ["authz.owner_mandatory_risk"]
  }

  function OutOfScope(cap: Capability, ask: Ask): Option<string> {
    if ask.action !in cap.actions then Some("authz.action_out_of_scope")
    else if ask.domain !in cap.domains then Some("authz.domain_out_of_scope")
    else if ask.risk.Exceeds(cap.ceiling) then Some("authz.risk_ceiling")
    else None
  }

  /** The last stage, entered only by an in-scope request. */
  function CheckContext(cap: Capability, ask: Ask, s: Situation, rules: seq<string>): Check {
    if !s.requireContext then Check(Allow, rules + ["authz.allow"], Some(cap.id), None, None, None)
    else if s.context.None? then Check(Refuse, rules + ["authz.no_principal_context"], Some(cap.id), None, None, None)
    else
      var prov := Some(s.context.value.provenance);
      if Present(s.context.value.mandate).None? then Check(Refuse, rules + ["authz.no_mandate"], Some(cap.id), None, None, prov)
      else if s.Mandate().None? then Check(Refuse, rules + ["authz.mandate_unparseable"], Some(cap.id), None, None, prov)
      else
        var m := s.Mandate().value;
        if !m.Valid(s.now) then Check(Refuse, rules + ["authz.mandate_invalid"], Some(cap.id), None, Some(m.id), prov)
        else if ask.action !in m.scope.Actions()
        then Check(Refuse, rules + ["authz.mandate_action_out_of_scope"], Some(cap.id), None, Some(m.id), prov)
        else
          var ceiling := EffectiveCeiling(cap.ceiling, m);
          if ask.risk.Exceeds(ceiling)
          then Check(Refuse, rules + ["authz.provenance_risk_ceiling"], Some(cap.id), Some(ceiling), Some(m.id), prov)
          else Check(Allow, rules + ["authz.allow"], Some(cap.id), Some(ceiling), Some(m.id), prov)
  }

  /** The rules once no Owner decision is due any more. */
  function PassedRules(ask: Ask): seq<string> {
    ENTERED + ReservedRules(ask) + if ask.Reserved() then ["authz.reserved_grant_skip_escalate"] else []
  }

  function CheckUsable(cap: Capability, ask: Ask, skip: bool, s: Situation): Check {
    if ask.Reserved() && !skip then Check(OwnerMandatory, ENTERED + ReservedRules(ask), Some(cap.id), None, None, None)
    else if OutOfScope(cap, ask).Some?
    then Check(Refuse, PassedRules(ask) + [OutOfScope(cap, ask).value], Some(cap.id), None, None, None)
    else CheckContext(cap, ask, s, PassedRules(ask))
  }

  /** check_capability. skip is skip_owner_mandatory_escalate. */
  function CheckCapability(cap: Option<Capability>, ask: Ask, skip: bool, s: Situation): Check {
    if s.requireContext && !s.ContextValid() then Check(Refuse, ENTERED + ["authz.no_principal_context"], None, None, None, None)
    else if cap.None? then Check(Refuse, ENTERED + ["authz.no_capability"], None, None, None, None)
    else if Unusable(cap.value, ask.principal, s.now).Some?
    then Check(Refuse, ENTERED + Unusable(cap.value, ask.principal, s.now).value, Some(cap.value.id), None, None, None)
    else CheckUsable(cap.value, ask, skip, s)
  }

  // ---------------------------------------------------------------- what ALLOW means

  /** The capability covers the request at this moment. */
  predicate Covers(cap: Capability, ask: Ask, now: int) {
    && cap.principal == ask.principal && cap.Active(now)
    && ask.action in cap.actions && ask.domain in cap.domains && ask.risk.Rank() <= cap.ceiling.Rank()
  }

  /** The bound context carries a valid mandate that covers the request. */
  predicate MandateCovers(ask: Ask, s: Situation) {
    && s.ContextValid() && s.Mandate().Some?
    && s.Mandate().value.Allows(ask.action, ask.risk, s.now)
  }

  /** The capability is this principal's, Owner-issued, neither transferable nor delegated further, its decision role
      is the Owner's alone, and it has neither expired nor been revoked. */
  predicate InForce(cap: Capability, principal: string, now: int) {
    && cap.principal == principal && cap.issuedBy == "Owner" && !cap.transferable && cap.delegationDepth == 1
    && (cap.role == RDec ==> cap.principal == "owner") && now < cap.expiresAt && cap.revokedAt.None?
  }

  /** The bound context: a principal, and a mandate text that denotes an unexpired mandate with this action and risk. */
  predicate ContextCovers(ask: Ask, s: Situation) {
    && s.context.Some? && s.context.value.principal != ""
    && MandateOf(s.reader, s.context.value.mandate).Some?
    && var m := MandateOf(s.reader, s.context.value.mandate).value;
       && (m.expires.None? || s.now <= m.expires.value)
       && ask.action in m.scope.Actions()
       && (ask.risk == Low || m.scope.Ceiling() == High || ask.risk == m.scope.Ceiling())
  }

  /** ALLOW, in plain terms: an in-force capability with the action, the domain and the risk; for a non-owner's COMMIT
      or HIGH only with the Owner's permit standing in; and, when a context is required, one that covers the request. */
  lemma AllowExactlyWhen(cap: Option<Capability>, ask: Ask, skip: bool, s: Situation)
    ensures CheckCapability(cap, ask, skip, s).decision == Allow <==>
            && cap.Some? && InForce(cap.value, ask.principal, s.now)
            && ask.action in cap.value.actions && ask.domain in cap.value.domains
            && (ask.risk == Low || cap.value.ceiling == High || ask.risk == cap.value.ceiling)
            && (ask.principal != "owner" && (ask.action == Commit || ask.risk == High) ==> skip)
            && (s.requireContext ==> ContextCovers(ask, s))
  {
  }

  /** OWNER_MANDATORY, in plain terms: a non-owner asks for COMMIT or HIGH under an in-force capability, scope aside,
      nothing stands in, and a context is bound when one is required. */
  lemma OwnerMandatoryExactlyWhen(cap: Option<Capability>, ask: Ask, skip: bool, s: Situation)
    ensures CheckCapability(cap, ask, skip, s).decision == OwnerMandatory <==>
            && cap.Some? && InForce(cap.value, ask.principal, s.now)
            && ask.principal != "owner" && (ask.action == Commit || ask.risk == High) && !skip
            && (s.requireContext ==> s.context.Some? && s.context.value.principal != "")
  {
  }

  /** So no check lets a non-owner have COMMIT or HIGH on its own. */
  lemma NoOwnerNoCommitNoHigh(cap: Option<Capability>, ask: Ask, s: Situation)
    requires ask.principal != "owner" && (ask.action == Commit || ask.risk == High)
    ensures CheckCapability(cap, ask, false, s).decision != Allow
  {
    AllowExactlyWhen(cap, ask, false, s);
  }

  lemma ReservedMeans(ask: Ask)
    ensures ask.Reserved() <==> ask.principal != "owner" && (ask.action == Commit || ask.risk == High)
  {
  }

  function LastRule(check: Check): string
    requires check.rules != []
  {
    check.rules[|check.rules| - 1]
  }

  /** The obstacle a refusal names, when a capability is presented that is not usable. */
  lemma UnusableTold(cap: Capability, ask: Ask, skip: bool, s: Situation)
    requires s.requireContext ==> s.context.Some? && s.context.value.principal != ""
    ensures var check := CheckCapability(Some(cap), ask, skip, s);
            && check.rules != []
            && (cap.principal != ask.principal ==> check.decision == Refuse && LastRule(check) == "authz.principal_mismatch")
            && (cap.principal == ask.principal && cap.StructurallyValid() && cap.revokedAt.Some? ==>
                  check.decision == Refuse && LastRule(check) == "authz.revoked")
            && (cap.principal == ask.principal && cap.StructurallyValid() && cap.revokedAt.None? && cap.expiresAt <= s.now ==>
                  check.decision == Refuse && LastRule(check) == "authz.expired")
  {
  }

  /** The obstacle it names, when the capability is usable but too narrow: action before domain before risk. */
  lemma NarrownessTold(cap: Capability, ask: Ask, skip: bool, s: Situation)
    requires s.requireContext ==> s.context.Some? && s.context.value.principal != ""
    requires InForce(cap, ask.principal, s.now) && (ask.Reserved() ==> skip)
    ensures var check := CheckCapability(Some(cap), ask, skip, s);
            && check.rules != []
            && (ask.action !in cap.actions ==> check.decision == Refuse && LastRule(check) == "authz.action_out_of_scope")
            && (ask.action in cap.actions && ask.domain !in cap.domains ==>
                  check.decision == Refuse && LastRule(check) == "authz.domain_out_of_scope")
            && (ask.action in cap.actions && ask.domain in cap.domains
                && !(ask.risk == Low || cap.ceiling == High || ask.risk == cap.ceiling) ==>
                  check.decision == Refuse && LastRule(check) == "authz.risk_ceiling")
  {
  }

  /** The obstacle it names when only the mandate of the bound context stands in the way: none, one that does not parse,
      one that has expired, one without the action, or a ceiling below the risk. */
  lemma MandateRefusalTold(cap: Capability, ask: Ask, skip: bool, s: Situation)
    requires s.requireContext && s.context.Some? && s.context.value.principal != ""
    requires Covers(cap, ask, s.now) && (ask.Reserved() ==> skip)
    ensures var check, text := CheckCapability(Some(cap), ask, skip, s), s.context.value.mandate;
            && check.rules != []
            && LastRule(check) ==
               if text.None? || text == Some("") then "authz.no_mandate"
               else if MandateOf(s.reader, text).None? then "authz.mandate_unparseable"
               else
                 var m := MandateOf(s.reader, text).value;
                 if m.expires.Some? && m.expires.value < s.now then "authz.mandate_invalid"
                 else if ask.action !in m.scope.Actions() then "authz.mandate_action_out_of_scope"
                 else if ask.risk.Rank() > m.scope.Ceiling().Rank() then "authz.provenance_risk_ceiling"
                 else "authz.allow"
  {
  }

  /** And when the context, or the capability, is missing. */
  lemma AbsenceTold(ask: Ask, skip: bool, s: Situation, cap: Option<Capability>)
    ensures s.requireContext && (s.context.None? || s.context.value.principal == "") ==>
              CheckCapability(cap, ask, skip, s) == Check(Refuse, ["authz.entered", "authz.no_principal_context"], None, None, None, None)
    ensures !s.requireContext ==>
              CheckCapability(None, ask, skip, s) == Check(Refuse, ["authz.entered", "authz.no_capability"], None, None, None, None)
  {
  }

  /** An OWNER_MANDATORY check names the action for COMMIT, and the risk otherwise. */
  lemma MandatoryReasonTold(cap: Option<Capability>, ask: Ask, skip: bool, s: Situation)
    requires CheckCapability(cap, ask, skip, s).decision == OwnerMandatory
    ensures "authz.owner_mandatory_action" in CheckCapability(cap, ask, skip, s).rules <==> ask.action == Commit
    ensures "authz.owner_mandatory_risk" in CheckCapability(cap, ask, skip, s).rules <==> ask.action != Commit
  {
  }

  /** The frame that an audit record quotes is that of the capability, the mandate and the context that decided. */
  lemma FrameTells(cap: Option<Capability>, ask: Ask, skip: bool, s: Situation)
    ensures var check := CheckCapability(cap, ask, skip, s);
            && (check.capabilityId.Some? ==> cap.Some? && check.capabilityId.value == cap.value.id)
            && (check.mandateId.Some? ==> s.requireContext && s.Mandate().Some? && check.mandateId.value == s.Mandate().value.id)
            && (check.provenance.Some? ==> s.context.Some? && check.provenance.value == s.context.value.provenance)
            && (!s.requireContext ==> check.mandateId.None? && check.provenance.None? && check.ceiling.None?)
  {
    if cap.Some? { ContextFrameTells(cap.value, ask, s, PassedRules(ask)); }
  }

  lemma ContextFrameTells(cap: Capability, ask: Ask, s: Situation, rules: seq<string>)
    ensures var check := CheckContext(cap, ask, s, rules);
            && check.capabilityId == Some(cap.id)
            && (check.mandateId.Some? ==> s.requireContext && s.Mandate().Some? && check.mandateId.value == s.Mandate().value.id)
            && (check.provenance.Some? ==> s.requireContext && s.context.Some? && check.provenance.value == s.context.value.provenance)
            && (!s.requireContext ==> check.mandateId.None? && check.provenance.None? && check.ceiling.None?)
  {
  }

  /** A request that is allowed under a required context quotes all three. */
  lemma AllowedFrameTells(cap: Option<Capability>, ask: Ask, skip: bool, s: Situation)
    requires CheckCapability(cap, ask, skip, s).decision == Allow
    ensures var check := CheckCapability(cap, ask, skip, s);
            && check.capabilityId.Some?
            && (s.requireContext ==> check.mandateId.Some? && check.provenance.Some? && check.ceiling.Some?)
  {
  }

  /** The three dispositions by the model's own words. */
  lemma DispositionExactlyWhen(cap: Option<Capability>, ask: Ask, skip: bool, s: Situation)
    ensures CheckCapability(cap, ask, skip, s).decision == Allow <==>
            cap.Some? && Covers(cap.value, ask, s.now) && (ask.Reserved() ==> skip) && (s.requireContext ==> MandateCovers(ask, s))
    ensures CheckCapability(cap, ask, skip, s).decision == OwnerMandatory <==>
            && (s.requireContext ==> s.ContextValid())
            && cap.Some? && cap.value.principal == ask.principal && cap.value.Active(s.now) && ask.Reserved() && !skip
  {
  }

  lemma MandateCoversMeans(ask: Ask, s: Situation)
    ensures MandateCovers(ask, s) <==> ContextCovers(ask, s)
  {
  }

  lemma CoversMeans(cap: Capability, ask: Ask, now: int)
    ensures Covers(cap, ask, now) <==>
            && InForce(cap, ask.principal, now) && ask.action in cap.actions && ask.domain in cap.domains
            && (ask.risk == Low || cap.ceiling == High || ask.risk == cap.ceiling)
  {
  }

  /** An allowed request stays under both ceilings, and the reported effective ceiling is their minimum. */
  lemma AllowRespectsBothCeilings(cap: Option<Capability>, ask: Ask, skip: bool, s: Situation)
    requires CheckCapability(cap, ask, skip, s).decision == Allow && s.requireContext
    ensures var c := CheckCapability(cap, ask, skip, s).ceiling;
            && c.Some? && s.Mandate().Some?
            && ask.risk.Rank() <= c.value.Rank()
            && c.value.Rank() <= cap.value.ceiling.Rank() && c.value.Rank() <= s.Mandate().value.scope.Ceiling().Rank()
            && (c.value == cap.value.ceiling || c.value == s.Mandate().value.scope.Ceiling())
  {
  }

  /** Requiring a context never adds authority: the disposition stays what it was, or becomes a refusal. */
  lemma ContextOnlyRefuses(cap: Option<Capability>, ask: Ask, skip: bool, s: Situation)
    ensures var with := CheckCapability(cap, ask, skip, s.(requireContext := true)).decision;
            with == Refuse || with == CheckCapability(cap, ask, skip, s.(requireContext := false)).decision
  {
  }

  /** Nothing becomes allowed merely because time passes. */
  lemma ClockOnlyShrinks(cap: Option<Capability>, ask: Ask, skip: bool, s: Situation, later: int)
    requires s.now <= later
    requires CheckCapability(cap, ask, skip, s.(now := later)).decision == Allow
    ensures CheckCapability(cap, ask, skip, s).decision == Allow
  {
    DispositionExactlyWhen(cap, ask, skip, s);
    DispositionExactlyWhen(cap, ask, skip, s.(now := later));
  }

  // ---------------------------------------------------------------- choosing among capabilities

  function Rank(d: Disposition): nat {
    match d
    case Refuse => 0
    case OwnerMandatory => 1
    case Allow => 2
  }

  /** Index of the first occurrence of d at or after start. */
  function FirstFrom(ds: seq<Disposition>, d: Disposition, start: nat): (r: Option<nat>)
    ensures r.Some? ==> start <= r.value < |ds| && ds[r.value] == d
    ensures r.Some? ==> forall i | start <= i < r.value :: ds[i] != d
    ensures r.None? ==> forall i | start <= i < |ds| :: ds[i] != d
    decreases |ds| - start
  {
    if start >= |ds| then None
    else if ds[start] == d then Some(start)
    else FirstFrom(ds, d, start + 1)
  }

  /** Where evaluate's loop ends: it does not stop on an ALLOW at index 0, so a later ALLOW replaces it. */
  function EvaluateChoice(ds: seq<Disposition>): (r: nat)
    requires ds != []
    ensures r < |ds|
  {
    var later := FirstFrom(ds, Allow, 1);
    if later.Some? then later.value
    else if ds[0] == Allow then 0
    else FirstFrom(ds, OwnerMandatory, 0).GetOr(0)
  }

  /** Where reenter's loop ends: at the first ALLOW. */
  function ReenterChoice(ds: seq<Disposition>): (r: nat)
    requires ds != []
    ensures r < |ds|
  {
    var first := FirstFrom(ds, Allow, 0);
    if first.Some? then first.value else FirstFrom(ds, OwnerMandatory, 0).GetOr(0)
  }

  predicate Strongest(ds: seq<Disposition>, d: Disposition) {
    d in ds && forall i | 0 <= i < |ds| :: Rank(ds[i]) <= Rank(d)
  }

  /** The two loops may settle on different capabilities, but on the same, strongest disposition. */
  lemma BothChoicesStrongest(ds: seq<Disposition>)
    requires ds != []
    ensures Strongest(ds, ds[EvaluateChoice(ds)]) && Strongest(ds, ds[ReenterChoice(ds)])
    ensures ds[EvaluateChoice(ds)] == ds[ReenterChoice(ds)]
  {
  }

  lemma StrongestUnique(a: seq<Disposition>, b: seq<Disposition>, x: Disposition, y: Disposition)
    requires forall d :: d in a <==> d in b
    requires Strongest(a, x) && Strongest(b, y)
    ensures x == y
  {
    var i :| 0 <= i < |b| && b[i] == x;
    var j :| 0 <= j < |a| && a[j] == y;
  }

  /** Neither loop's decision depends on the order of the capabilities, or on repetitions. */
  lemma OrderIrrelevant(a: seq<Disposition>, b: seq<Disposition>)
    requires a != [] && b != [] && forall d :: d in a <==> d in b
    ensures a[EvaluateChoice(a)] == b[EvaluateChoice(b)] && a[ReenterChoice(a)] == b[ReenterChoice(b)]
  {
    BothChoicesStrongest(a);
    BothChoicesStrongest(b);
    StrongestUnique(a, b, a[EvaluateChoice(a)], b[EvaluateChoice(b)]);
  }

  /** check_capability with everything but the capability fixed. */
  type Decider = Option<Capability> -> Check

  function DeciderFor(ask: Ask, s: Situation): Decider {
    cap => CheckCapability(cap, ask, false, s)
  }

  function Dispositions(caps: seq<Option<Capability>>, decide: Decider): (r: seq<Disposition>)
    ensures |r| == |caps|
    ensures forall i | 0 <= i < |r| :: r[i] == decide(caps[i]).decision
  {
    seq(|caps|, i requires 0 <= i < |caps| => decide(caps[i]).decision)
  }

  /** What evaluate's loop knows after i rounds without a break: at is its current best. */
  predicate EvaluateSoFar(ds: seq<Disposition>, i: nat, at: nat) {
    && at < i <= |ds|
    && (forall k | 1 <= k < i :: ds[k] != Allow)
    && (ds[at] == Allow ==> at == 0)
    && (ds[at] == OwnerMandatory ==> ds[0] != Allow && forall k | 0 <= k < at :: ds[k] == Refuse)
    && (ds[at] == Refuse ==> at == 0 && forall k | 0 <= k < i :: ds[k] == Refuse)
  }

  lemma EvaluateEnds(ds: seq<Disposition>, at: nat)
    requires ds != [] && EvaluateSoFar(ds, |ds|, at)
    ensures at == EvaluateChoice(ds)
  {
  }

  /** The loop of Mediator._evaluate_authenticated, over the candidate capabilities in registry order. */
  method EvaluateLoop(caps: seq<Option<Capability>>, decide: Decider) returns (check: Check, cap: Option<Capability>)
    requires caps != []
    ensures cap == caps[EvaluateChoice(Dispositions(caps, decide))]
    ensures check == decide(cap)
    ensures Strongest(Dispositions(caps, decide), check.decision)
  {
    ghost var ds := Dispositions(caps, decide);
    BothChoicesStrongest(ds);
    check, cap := decide(caps[0]), caps[0];
    ghost var at := 0;
    var i := 1;
    while i < |caps|
      invariant EvaluateSoFar(ds, i, at) && cap == caps[at] && check == decide(cap)
    {
      var c := decide(caps[i]);
      assert c.decision == ds[i];
      if c.decision == Allow {
        assert FirstFrom(ds, Allow, 1) == Some(i);
        check, cap := c, caps[i];
        return;
      } else if c.decision == OwnerMandatory && check.decision == Refuse {
        check, cap, at := c, caps[i], i;
      }
      i := i + 1;
    }
    EvaluateEnds(ds, at);
  }

  /** What reenter's loop knows after i rounds without a break. */
  predicate ReenterSoFar(ds: seq<Disposition>, i: nat, at: nat) {
    && at < i <= |ds|
    && (forall k | 0 <= k < i :: ds[k] != Allow)
    && (ds[at] == OwnerMandatory ==> forall k | 0 <= k < at :: ds[k] == Refuse)
    && (ds[at] == Refuse ==> at == 0 && forall k | 0 <= k < i :: ds[k] == Refuse)
  }

  lemma ReenterEnds(ds: seq<Disposition>, at: nat)
    requires ds != [] && ReenterSoFar(ds, |ds|, at)
    ensures at == ReenterChoice(ds)
  {
  }

  /** The loop of Mediator._reenter_authenticated when the grant is not bound to one capability. */
  method ReenterLoop(caps: seq<Option<Capability>>, decide: Decider) returns (cap: Option<Capability>)
    requires caps != []
    ensures cap == caps[ReenterChoice(Dispositions(caps, decide))]
    ensures Strongest(Dispositions(caps, decide), decide(cap).decision)
  {
    ghost var ds := Dispositions(caps, decide);
    BothChoicesStrongest(ds);
    var best := decide(caps[0]).decision;
    cap := caps[0];
    if best == Allow {
      assert FirstFrom(ds, Allow, 0) == Some(0);
      return;
    }
    ghost var at := 0;
    var i := 1;
    while i < |caps|
      invariant ReenterSoFar(ds, i, at) && cap == caps[at] && best == ds[at]
    {
      var d := decide(caps[i]).decision;
      assert d == ds[i];
      if d == Allow || (d == OwnerMandatory && best == Refuse) {
        best, cap := d, caps[i];
        if d == Allow {
          assert FirstFrom(ds, Allow, 0) == Some(i);
          return;
        }
        at := i;
      }
      i := i + 1;
    }
    ReenterEnds(ds, at);
  }
}
