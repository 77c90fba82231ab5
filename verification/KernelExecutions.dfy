/** Redemption, execution log and PERMIT over whole runs of the mediator. */
module KernelExecutions {
  import opened Domain
  import opened JsonValues
  import opened Kernel
  import opened Rulings
  import opened KernelSteps
  import opened KernelRuns
  import opened KernelOrigin
  import Grants
  import Escalations

  // ---------------------------------------------------------------- the consumed flag

  predicate ConsumedIn(s: State, id: string) {
    id in s.grants.cells && s.grants.cells[id].grant.consumed
  }

  predicate PermitsOn(d: Decision, id: string) {
    d.verdict == Permit && d.escalation == Some(id)
  }

  /** The call names the escalation and its record could not be built or appended. */
  predicate FailsOn(c: Call, d: Decision, id: string) {
    d.escalation == Some(id) && !Recorded(c)
  }

  /** A call leaves a grant consumed exactly when it permitted on it, or found it consumed and did not fail on it. */
  predicate Tracks(s: State, c: Call, t: State, d: Decision, id: string) {
    ConsumedIn(t, id) <==> PermitsOn(d, id) || (ConsumedIn(s, id) && !FailsOn(c, d, id))
  }

  lemma RedemptionConsumes(k: Config, s: State, c: Call, r: Ruling, one: string, id: string)
    requires LawfulRedemption(k, s, c, r, one)
    ensures ConsumedIn(Apply(s, Redeems(one), c.now), id) <==> ConsumedIn(s, id) || one == id
    ensures !ConsumedIn(s, one) && r.escalation == Some(one) && r.verdict == Permit
  {
  }

  lemma EffectOnConsumed(k: Config, s: State, c: Call, r: Ruling, id: string)
    requires Lawful(k, s, c, r) && Aligned(s)
    ensures var a := Apply(s, r.effect, c.now);
            && (ConsumedIn(a, id) <==> ConsumedIn(s, id) || r.effect == Redeems(id))
            && (r.effect == Redeems(id) ==> !ConsumedIn(s, id) && r.escalation == Some(id) && r.verdict == Permit)
  {
    if r.effect.Redeems? { RedemptionConsumes(k, s, c, r, r.effect.id, id); }
  }

  lemma RollbackOnConsumed(s: State, undo: Option<string>, id: string)
    ensures ConsumedIn(RolledBack(s, undo), id) <==> ConsumedIn(s, id) && undo != Some(id)
  {
  }

  lemma PermitOnIsRedemption(k: Config, s: State, c: Call, r: Ruling, id: string)
    requires Lawful(k, s, c, r)
    ensures r.verdict == Permit && r.escalation == Some(id) <==> r.effect == Redeems(id)
  {
  }

  lemma CallTracks(k: Config, s: State, c: Call, id: string)
    requires Aligned(s) && HashNotEmpty(c)
    ensures Tracks(s, c, Gated(k, s, c).0, Gated(k, s, c).1, id)
  {
    var s', r, a := Seen(k, s, c), Ruled(k, s, c), Applied(k, s, c);
    SeenOnlyObserves(k, s, c);
    RuledLawful(k, s, c);
    DecisionParts(k, s, c);
    GrantParts(k, s, c);
    EffectOnConsumed(k, s', c, r, id);
    PermitOnIsRedemption(k, s', c, r, id);
    RollbackOnConsumed(a, r.escalation, id);
  }

  // ---------------------------------------------------------------- consumed, over runs

  ghost predicate TracksAll(m: Machine) {
    forall s: State, c: Call, id: string :: Aligned(s) && HashNotEmpty(c) ==> Tracks(s, c, m(s, c).0, m(s, c).1, id)
  }

  lemma MediatorTracks(k: Config)
    ensures TracksAll(Mediates(k))
  {
    forall s: State, c: Call, id: string | Aligned(s) && HashNotEmpty(c)
      ensures Tracks(s, c, Mediates(k)(s, c).0, Mediates(k)(s, c).1, id)
    {
      CallTracks(k, s, c, id);
    }
  }

  /** Call j returned PERMIT on the escalation, and no later call before n named it and failed to record. */
  predicate Stands(m: Machine, start: State, calls: seq<Call>, j: nat, n: nat, id: string)
    requires n <= |calls|
  {
    && j < n && PermitsOn(DecisionAt(m, start, calls, j), id)
    && forall x | j < x < n :: !FailsOn(calls[x], DecisionAt(m, start, calls, x), id)
  }

  lemma StandsNext(m: Machine, start: State, calls: seq<Call>, j: nat, n: nat, id: string)
    requires 0 < n <= |calls|
    ensures var d := DecisionAt(m, start, calls, n - 1);
            Stands(m, start, calls, j, n, id) <==>
              (j == n - 1 && PermitsOn(d, id)) || (Stands(m, start, calls, j, n - 1, id) && !FailsOn(calls[n - 1], d, id))
  {
  }

  lemma {:induction false} StandingWhile(m: Machine, start: State, calls: seq<Call>, n: nat, id: string)
    requires TracksAll(m) && KeepsAligned(m) && Aligned(start) && HashesNotEmpty(calls) && n <= |calls|
    requires !ConsumedIn(start, id)
    ensures ConsumedIn(Before(m, start, calls, n), id) <==> exists j: nat :: Stands(m, start, calls, j, n, id)
  {
    if n > 0 {
      StandingWhile(m, start, calls, n - 1, id);
      RunAligned(m, start, calls, n - 1);
      var d := DecisionAt(m, start, calls, n - 1);
      assert Tracks(Before(m, start, calls, n - 1), calls[n - 1], Before(m, start, calls, n), d, id);
      var last := n - 1;
      StandsNext(m, start, calls, last, n, id);
      if j: nat :| Stands(m, start, calls, j, n, id) {
        StandsNext(m, start, calls, j, n, id);
      }
      if j: nat :| Stands(m, start, calls, j, last, id) {
        StandsNext(m, start, calls, j, n, id);
      }
    }
  }

  lemma ConsumedWhileStanding(k: Config, start: State, calls: seq<Call>, n: nat, id: string)
    requires FromScratch(start) && HashesNotEmpty(calls) && n <= |calls|
    ensures ConsumedIn(Before(Mediates(k), start, calls, n), id) <==>
            exists j: nat :: Stands(Mediates(k), start, calls, j, n, id)
  {
    MediatorTracks(k);
    MediatorTraces(k);
    StandingWhile(Mediates(k), start, calls, n, id);
  }

  // ---------------------------------------------------------------- the same, by what the later calls carry

  /** On a resolved escalation: the answer names it exactly when the call is a re-entry that carries its id. */
  predicate NamedByReentry(k: Config, s: State, c: Call, d: Decision, id: string) {
    id in s.escalations && s.escalations[id].status == Escalations.Resolved ==> (d.escalation == Some(id) <==> Presents(k, c, id))
  }

  lemma PresentedResolved(k: Config, s: State, c: Call, id: string)
    requires Presents(k, c, id) && id in s.escalations && s.escalations[id].status == Escalations.Resolved
    ensures TheRuling(k, s, c).escalation == Some(id)
  {
  }

  lemma CallNamedByReentry(k: Config, s: State, c: Call, id: string)
    ensures NamedByReentry(k, s, c, Gated(k, s, c).1, id)
  {
    if id in s.escalations && s.escalations[id].status == Escalations.Resolved {
      SeenOnlyObserves(k, s, c);
      RuledLawful(k, s, c);
      DecisionParts(k, s, c);
      if Presents(k, c, id) { PresentedResolved(k, Seen(k, s, c), c, id); }
    }
  }

  ghost predicate NamesByReentry(k: Config, m: Machine) {
    forall s: State, c: Call, id: string :: NamedByReentry(k, s, c, m(s, c).1, id)
  }

  lemma MediatorNamesByReentry(k: Config)
    ensures NamesByReentry(k, Mediates(k))
  {
    forall s: State, c: Call, id: string ensures NamedByReentry(k, s, c, Mediates(k)(s, c).1, id) {
      CallNamedByReentry(k, s, c, id);
    }
  }

  /** Call j returned PERMIT on the escalation, and no later call before n was a re-entry that carried its id and could
      not be recorded. */
  predicate Undisturbed(k: Config, m: Machine, start: State, calls: seq<Call>, j: nat, n: nat, id: string)
    requires n <= |calls|
  {
    && j < n && PermitsOn(DecisionAt(m, start, calls, j), id)
    && forall x | j < x < n :: !(Presents(k, calls[x], id) && !Recorded(calls[x]))
  }

  lemma ResolvedAfterPermit(m: Machine, start: State, calls: seq<Call>, j: nat, x: nat, id: string)
    requires PermitsResolve(m) && AdvancesRecords(m) && Escalations.WellFormed(start.escalations) && j < x < |calls|
    requires PermitsOn(DecisionAt(m, start, calls, j), id)
    ensures var s := Before(m, start, calls, x); id in s.escalations && s.escalations[id].status == Escalations.Resolved
  {
    var s, t := Before(m, start, calls, j), Before(m, start, calls, j + 1);
    assert Resolves(s, t, DecisionAt(m, start, calls, j));
    RecordsAdvance(m, start, calls, j + 1, x);
    assert Escalations.Follows(t.escalations[id], Before(m, start, calls, x).escalations[id]);
  }

  lemma StandsExactlyUndisturbed(k: Config, m: Machine, start: State, calls: seq<Call>, j: nat, n: nat, id: string)
    requires PermitsResolve(m) && AdvancesRecords(m) && NamesByReentry(k, m) && Escalations.WellFormed(start.escalations)
    requires n <= |calls|
    ensures Stands(m, start, calls, j, n, id) <==> Undisturbed(k, m, start, calls, j, n, id)
  {
    if j < n && PermitsOn(DecisionAt(m, start, calls, j), id) {
      forall x | j < x < n
        ensures FailsOn(calls[x], DecisionAt(m, start, calls, x), id) <==> Presents(k, calls[x], id) && !Recorded(calls[x])
      {
        ResolvedAfterPermit(m, start, calls, j, x, id);
        assert NamedByReentry(k, Before(m, start, calls, x), calls[x], DecisionAt(m, start, calls, x), id);
      }
    }
  }

  lemma UndisturbedWhile(k: Config, m: Machine, start: State, calls: seq<Call>, n: nat, id: string)
    requires PermitsResolve(m) && AdvancesRecords(m) && NamesByReentry(k, m) && Escalations.WellFormed(start.escalations)
    requires n <= |calls|
    ensures (exists j: nat :: Stands(m, start, calls, j, n, id)) <==> exists j: nat :: Undisturbed(k, m, start, calls, j, n, id)
  {
    if j: nat :| Stands(m, start, calls, j, n, id) {
      StandsExactlyUndisturbed(k, m, start, calls, j, n, id);
    }
    if j: nat :| Undisturbed(k, m, start, calls, j, n, id) {
      StandsExactlyUndisturbed(k, m, start, calls, j, n, id);
    }
  }

  /** A grant is consumed exactly when a PERMIT was returned on it and no later authenticated re-entry that carries the
      escalation's id could not be recorded. Consumed therefore means permitted; permitted does not mean still
      consumed. */
  lemma ConsumedExactlyWhen(k: Config, start: State, calls: seq<Call>, n: nat, id: string)
    requires FromScratch(start) && HashesNotEmpty(calls) && n <= |calls|
    ensures ConsumedIn(Before(Mediates(k), start, calls, n), id) <==>
            exists j: nat :: Undisturbed(k, Mediates(k), start, calls, j, n, id)
  {
    ConsumedWhileStanding(k, start, calls, n, id);
    MediatorPermitsResolve(k);
    MediatorAdvancesRecords(k);
    MediatorNamesByReentry(k);
    UndisturbedWhile(k, Mediates(k), start, calls, n, id);
  }

  /** How a permitted grant is unconsumed: any authenticated re-entry on the resolved escalation whose record fails.
      It is refused, yet the grant is set back, and its execution record is marked rolled back. */
  lemma StrayFailureUnconsumes(k: Config, s: State, c: Call, id: string)
    requires Authentic(c) && c.op == Reenter && !Recorded(c)
    requires Get(Canon(c), "escalation_id").Truthy() && k.str(Get(Canon(c), "escalation_id")) == id
    requires id in s.escalations && s.escalations[id].status == Escalations.Resolved
    ensures Gated(k, s, c).1.verdict == Deny && !ConsumedIn(Gated(k, s, c).0, id)
    ensures Gated(k, s, c).0.grants == Grants.Unconsumed(s.grants, id)
  {
    SeenOnlyObserves(k, s, c);
    GrantParts(k, s, c);
    StrayRuling(k, Seen(k, s, c), c, id);
    StrayVerdict(k, s, c);
    RollbackOnConsumed(Applied(k, s, c), Ruled(k, s, c).escalation, id);
  }

  lemma StrayRuling(k: Config, s: State, c: Call, id: string)
    requires Authentic(c) && c.op == Reenter
    requires Get(Canon(c), "escalation_id").Truthy() && k.str(Get(Canon(c), "escalation_id")) == id
    requires id in s.escalations && s.escalations[id].status == Escalations.Resolved
    ensures var r := TheRuling(k, s, c); r.verdict == Deny && r.escalation == Some(id) && r.effect == Nothing
  {
  }

  lemma StrayVerdict(k: Config, s: State, c: Call)
    requires Ruled(k, s, c).verdict == Deny
    ensures Gated(k, s, c).1.verdict == Deny
  {
  }

  // ---------------------------------------------------------------- the execution log

  predicate CoupledState(s: State) {
    Grants.Coupled(s.grants) && Aligned(s)
  }

  lemma EffectKeepsCoupled(k: Config, s: State, c: Call, r: Ruling)
    requires Lawful(k, s, c, r) && CoupledState(s)
    ensures Grants.Coupled(Apply(s, r.effect, c.now).grants)
  {
    match r.effect
    case Escalates(record, grant) => Grants.CreateKeepsCoupled(s.grants, grant);
    case Decides(id, decision, owner) => Grants.AttachKeepsCoupled(s.grants, id, decision);
    case Redeems(id) => Grants.RedeemKeepsCoupled(s.grants, id);
    case _ =>
  }

  lemma CallKeepsCoupled(k: Config, s: State, c: Call)
    requires CoupledState(s)
    ensures CoupledState(Gated(k, s, c).0)
  {
    var a, r := Applied(k, s, c), Ruled(k, s, c);
    SeenOnlyObserves(k, s, c);
    RuledLawful(k, s, c);
    EffectKeepsCoupled(k, Seen(k, s, c), c, r);
    GrantParts(k, s, c);
    if r.escalation.Some? { Grants.UnconsumeKeepsCoupled(a.grants, r.escalation.value); }
    CallAligned(k, s, c);
  }

  ghost predicate KeepsCoupled(m: Machine) {
    forall s: State, c: Call :: CoupledState(s) ==> CoupledState(m(s, c).0)
  }

  lemma MediatorKeepsCoupled(k: Config)
    ensures KeepsCoupled(Mediates(k))
  {
    forall s: State, c: Call | CoupledState(s) ensures CoupledState(Mediates(k)(s, c).0) {
      CallKeepsCoupled(k, s, c);
    }
  }

  lemma {:induction false} RunCoupled(m: Machine, start: State, calls: seq<Call>, n: nat)
    requires KeepsCoupled(m) && CoupledState(start) && n <= |calls|
    ensures CoupledState(Before(m, start, calls, n))
  {
    if n > 0 {
      RunCoupled(m, start, calls, n - 1);
    }
  }

  /** A kernel just built, with an execution log attached. */
  predicate FreshlyBuilt(start: State) {
    FromScratch(start) && start.grants.log == Some([])
  }

  /** With an execution log attached, at any moment of any run: the log is numbered 1..n, every grant is consumed
      exactly when one record stands for it, and then exactly one does. */
  lemma RunsStayCoupled(k: Config, start: State, calls: seq<Call>, n: nat)
    requires FreshlyBuilt(start) && n <= |calls|
    ensures Grants.Coupled(Before(Mediates(k), start, calls, n).grants)
  {
    MediatorKeepsCoupled(k);
    RunCoupled(Mediates(k), start, calls, n);
  }

  lemma {:induction false} StartsUnpermitted(m: Machine, start: State, calls: seq<Call>, j: nat, i: nat, n: nat, id: string)
    requires PermitsResolve(m) && AdvancesRecords(m) && Escalations.WellFormed(start.escalations) && n <= |calls|
    requires Stands(m, start, calls, j, n, id) && i < n && PermitsOn(DecisionAt(m, start, calls, i), id)
    ensures i == j
  {
    if i < j {
      ResolvedOnce(m, start, calls, i, j);
    } else if j < i {
      ResolvedOnce(m, start, calls, j, i);
    }
  }

  /** Every record that stands belongs to exactly one returned re-entry PERMIT: the only one ever given on its
      escalation, not undone by any later failure. */
  lemma LiveRecordsArePermits(k: Config, start: State, calls: seq<Call>, n: nat, i: nat) returns (j: nat)
    requires FreshlyBuilt(start) && HashesNotEmpty(calls) && n <= |calls|
    requires var log := Before(Mediates(k), start, calls, n).grants.log; log.Some? && i < |log.value| && !log.value[i].rolledBack
    ensures var e := Before(Mediates(k), start, calls, n).grants.log.value[i];
            && Stands(Mediates(k), start, calls, j, n, e.escalation)
            && forall x: nat | x < n && PermitsOn(DecisionAt(Mediates(k), start, calls, x), e.escalation) :: x == j
  {
    RunsStayCoupled(k, start, calls, n);
    var id := LiveIsConsumed(Before(Mediates(k), start, calls, n), i);
    ConsumedWhileStanding(k, start, calls, n, id);
    j :| Stands(Mediates(k), start, calls, j, n, id);
    OnlyThisPermit(k, start, calls, n, j, id);
  }

  lemma LiveIsConsumed(s: State, i: nat) returns (id: string)
    requires Grants.Coupled(s.grants) && i < |s.grants.log.value| && !s.grants.log.value[i].rolledBack
    ensures id == s.grants.log.value[i].escalation && ConsumedIn(s, id)
  {
    var e := s.grants.log.value[i];
    id := e.escalation;
    assert Grants.LiveIsNamed(s.grants.cells, e);
    assert Grants.CellAgrees(s.grants.log.value, id, s.grants.cells[id]);
  }

  lemma OnlyThisPermit(k: Config, start: State, calls: seq<Call>, n: nat, j: nat, id: string)
    requires FromScratch(start) && n <= |calls| && Stands(Mediates(k), start, calls, j, n, id)
    ensures forall x: nat | x < n && PermitsOn(DecisionAt(Mediates(k), start, calls, x), id) :: x == j
  {
    MediatorPermitsResolve(k);
    MediatorAdvancesRecords(k);
    forall x: nat | x < n && PermitsOn(DecisionAt(Mediates(k), start, calls, x), id) ensures x == j {
      StartsUnpermitted(Mediates(k), start, calls, j, x, n, id);
    }
  }
}
