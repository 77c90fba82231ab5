/** Policy and evidence over whole runs of the mediator. */
module KernelStores {
  import opened Domain
  import opened JsonValues
  import opened Kernel
  import opened Policies
  import opened Rulings
  import opened KernelSteps
  import opened KernelRuns
  import Evidence

  // ---------------------------------------------------------------- policy

  predicate Serves(k: Config, s: State) {
    !PolicyBlocks(k, s.policy)
  }

  /** The policy stays, or is what the Owner's update of this call installs. */
  predicate PolicyMoves(k: Config, s: State, c: Call, t: State) {
    t.policy == s.policy || (t.policy.Some? && OwnerInstalls(k, c, t.policy.value))
  }

  lemma ConcludePolicy(k: Config, s: State, c: Call, r: Ruling, observation: Option<nat>)
    ensures Conclude(k, s, c, r, observation).0.policy == Apply(s, r.effect, c.now).policy
  {
  }

  lemma CallMovesPolicy(k: Config, s: State, c: Call)
    ensures PolicyMoves(k, s, c, Gated(k, s, c).0)
  {
    SeenOnlyObserves(k, s, c);
    RuledLawful(k, s, c);
    EffectMovesPolicy(k, Seen(k, s, c), c, Ruled(k, s, c));
    ConcludePolicy(k, Seen(k, s, c), c, Ruled(k, s, c), Noticed(k, s, c).1);
  }

  lemma EffectMovesPolicy(k: Config, s: State, c: Call, r: Ruling)
    requires LawfulEffect(k, s, c, r)
    ensures PolicyMoves(k, s, c, Apply(s, r.effect, c.now))
  {
  }

  ghost predicate MovesPolicy(k: Config, m: Machine) {
    forall s: State, c: Call :: PolicyMoves(k, s, c, m(s, c).0)
  }

  lemma MediatorMovesPolicy(k: Config)
    ensures MovesPolicy(k, Mediates(k))
  {
    forall s: State, c: Call ensures PolicyMoves(k, s, c, Mediates(k)(s, c).0) {
      CallMovesPolicy(k, s, c);
    }
  }

  lemma {:induction false} PolicySource(k: Config, m: Machine, start: State, calls: seq<Call>, n: nat) returns (i: nat)
    requires MovesPolicy(k, m) && n <= |calls|
    ensures var policy := Before(m, start, calls, n).policy;
            policy == start.policy || (i < n && policy.Some? && OwnerInstalls(k, calls[i], policy.value))
    ensures Serves(k, start) ==> Serves(k, Before(m, start, calls, n))
  {
    i := 0;
    if n > 0 {
      i := PolicySource(k, m, start, calls, n - 1);
      var s, t := Before(m, start, calls, n - 1), Before(m, start, calls, n);
      assert PolicyMoves(k, s, calls[n - 1], t);
      if t.policy != s.policy {
        i := n - 1;
      }
    }
  }

  /** The policy in force is the one the kernel started with or one the Owner installed by an earlier call under an
      active R-DEC capability; and a kernel whose policy serves never loses it to one that blocks. */
  lemma PolicyHasAnOrigin(k: Config, start: State, calls: seq<Call>, n: nat) returns (i: nat)
    requires n <= |calls|
    ensures var policy := Before(Mediates(k), start, calls, n).policy;
            policy == start.policy || (i < n && policy.Some? && OwnerInstalls(k, calls[i], policy.value))
    ensures Serves(k, start) ==> Serves(k, Before(Mediates(k), start, calls, n))
  {
    MediatorMovesPolicy(k);
    i := PolicySource(k, Mediates(k), start, calls, n);
  }

  // ---------------------------------------------------------------- evidence

  /** The journal stays, or takes one step in the caller's name; and such a call is not permitted. */
  ghost predicate EvidenceMoves(s: State, c: Call, t: State, d: Decision) {
    t.evidence == s.evidence ||
    (d.verdict != Permit && exists op :: ActsAs(c, op) && t.evidence == Evidence.After(s.evidence, op, c.now))
  }

  lemma ConcludeEvidence(k: Config, s: State, c: Call, r: Ruling, observation: Option<nat>)
    ensures Conclude(k, s, c, r, observation).0.evidence == Apply(s, r.effect, c.now).evidence
  {
  }

  lemma CallMovesEvidence(k: Config, s: State, c: Call)
    ensures EvidenceMoves(s, c, Gated(k, s, c).0, Gated(k, s, c).1)
  {
    SeenOnlyObserves(k, s, c);
    RuledLawful(k, s, c);
    DecisionParts(k, s, c);
    EffectMovesEvidence(k, Seen(k, s, c), c, Ruled(k, s, c));
    ConcludeEvidence(k, Seen(k, s, c), c, Ruled(k, s, c), Noticed(k, s, c).1);
  }

  lemma EffectMovesEvidence(k: Config, s: State, c: Call, r: Ruling)
    requires LawfulEffect(k, s, c, r)
    ensures var a := Apply(s, r.effect, c.now);
            a.evidence == s.evidence ||
            (r.verdict != Permit && exists op :: ActsAs(c, op) && a.evidence == Evidence.After(s.evidence, op, c.now))
  {
  }

  ghost predicate MovesEvidence(m: Machine) {
    forall s: State, c: Call :: EvidenceMoves(s, c, m(s, c).0, m(s, c).1)
  }

  lemma MediatorMovesEvidence(k: Config)
    ensures MovesEvidence(Mediates(k))
  {
    forall s: State, c: Call ensures EvidenceMoves(s, c, Mediates(k)(s, c).0, Mediates(k)(s, c).1) {
      CallMovesEvidence(k, s, c);
    }
  }

  /** The step was taken by one of the first n calls, in the name of its caller. */
  predicate TakenBy(calls: seq<Call>, n: nat, op: Evidence.Op)
    requires n <= |calls|
  {
    exists x :: 0 <= x < n && ActsAs(calls[x], op)
  }

  /** The journal of a mediator is always the journal of some run of evidence operations, each taken by a call in its
      caller's name. */
  lemma {:induction false} EvidenceIsARun(m: Machine, start: State, calls: seq<Call>, n: nat) returns (ops: seq<(Evidence.Op, int)>)
    requires MovesEvidence(m) && start.evidence == Evidence.EMPTY && n <= |calls|
    ensures Before(m, start, calls, n).evidence == Evidence.Run(Evidence.EMPTY, ops)
    ensures forall i | 0 <= i < |ops| :: TakenBy(calls, n, ops[i].0)
  {
    ops := [];
    if n > 0 {
      var s, t := Before(m, start, calls, n - 1), Before(m, start, calls, n);
      ops := EvidenceIsARun(m, start, calls, n - 1);
      assert EvidenceMoves(s, calls[n - 1], t, DecisionAt(m, start, calls, n - 1));
      TakenLater(calls, n, ops);
      if t.evidence != s.evidence {
        var op :| ActsAs(calls[n - 1], op) && t.evidence == Evidence.After(s.evidence, op, calls[n - 1].now);
        ops := OneStepMore(calls, n, ops, op);
      }
    }
  }

  lemma TakenLater(calls: seq<Call>, n: nat, ops: seq<(Evidence.Op, int)>)
    requires 0 < n <= |calls| && forall i | 0 <= i < |ops| :: TakenBy(calls, n - 1, ops[i].0)
    ensures forall i | 0 <= i < |ops| :: TakenBy(calls, n, ops[i].0)
  {
    forall i | 0 <= i < |ops| ensures TakenBy(calls, n, ops[i].0) {
      assert TakenBy(calls, n - 1, ops[i].0);
    }
  }

  lemma OneStepMore(calls: seq<Call>, n: nat, ops: seq<(Evidence.Op, int)>, op: Evidence.Op) returns (more: seq<(Evidence.Op, int)>)
    requires 0 < n <= |calls| && ActsAs(calls[n - 1], op) && forall i | 0 <= i < |ops| :: TakenBy(calls, n, ops[i].0)
    ensures Evidence.Run(Evidence.EMPTY, more) == Evidence.After(Evidence.Run(Evidence.EMPTY, ops), op, calls[n - 1].now)
    ensures forall i | 0 <= i < |more| :: TakenBy(calls, n, more[i].0)
  {
    more := ops + [(op, calls[n - 1].now)];
    assert more[..|ops|] == ops;
    assert TakenBy(calls, n, op);
  }

  /** So through the mediator, too, every evidence record follows its lifecycle with its roles apart, and the events
      rebuild the records -- whatever failed to be audited on the way. */
  lemma EvidenceKeepsItsLifecycle(k: Config, start: State, calls: seq<Call>, n: nat)
    requires start.evidence == Evidence.EMPTY && n <= |calls|
    ensures var j := Before(Mediates(k), start, calls, n).evidence;
            Evidence.Lifecycles(j) && Evidence.Fold(j.events) == Evidence.BlankAll(j.current)
  {
    MediatorMovesEvidence(k);
    var ops := EvidenceIsARun(Mediates(k), start, calls, n);
    Evidence.LifecyclesAlways(ops);
    Evidence.EventsRebuildRecords(ops);
  }
}
