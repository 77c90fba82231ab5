/** Whole sequential runs of the mediator: any calls, by anyone, with any failures of the injected dependencies. */
module KernelRuns {
  import opened Domain
  import opened JsonValues
  import opened Authorization
  import opened Kernel
  import opened Rulings
  import opened KernelSteps
  import Grants
  import Escalations

  /** How a call moves the state and what it returns. Run lemmas are stated for any such machine that has the step
      property they need; Mediates(k) has them all. */
  type Machine = (State, Call) -> (State, Decision)

  function Mediates(k: Config): Machine {
    (s, c) => Gated(k, s, c)
  }

  /** The state before call n. */
  function Before(m: Machine, start: State, calls: seq<Call>, n: nat): State
    requires n <= |calls|
  {
    if n == 0 then start else m(Before(m, start, calls, n - 1), calls[n - 1]).0
  }

  function DecisionAt(m: Machine, start: State, calls: seq<Call>, n: nat): Decision
    requires n < |calls|
  {
    m(Before(m, start, calls, n), calls[n]).1
  }

  // ---------------------------------------------------------------- at most one PERMIT per escalation

  predicate Advanced(s: State, t: State) {
    Escalations.WellFormed(t.escalations) && Escalations.AllFollow(s.escalations, t.escalations)
  }

  ghost predicate AdvancesRecords(m: Machine) {
    forall s: State, c: Call :: Escalations.WellFormed(s.escalations) ==> Advanced(s, m(s, c).0)
  }

  lemma MediatorAdvancesRecords(k: Config)
    ensures AdvancesRecords(Mediates(k))
  {
    forall s: State, c: Call | Escalations.WellFormed(s.escalations) ensures Advanced(s, Mediates(k)(s, c).0) {
      CallAdvancesEscalations(k, s, c);
    }
  }

  lemma AdvancedOn(s: State, t: State, u: State)
    requires Escalations.WellFormed(t.escalations) && Advanced(s, t) && Advanced(t, u)
    ensures Advanced(s, u)
  {
    Escalations.FollowsOn(s.escalations, t.escalations, u.escalations);
  }

  lemma {:induction false} RecordsAdvance(m: Machine, start: State, calls: seq<Call>, i: nat, j: nat)
    requires AdvancesRecords(m) && Escalations.WellFormed(start.escalations) && i <= j <= |calls|
    ensures Advanced(Before(m, start, calls, i), Before(m, start, calls, j))
    decreases j
  {
    if j == 0 {
    } else if i == j {
      RecordsAdvance(m, start, calls, j - 1, j - 1);
      var s := Before(m, start, calls, j - 1);
      assert Advanced(s, m(s, calls[j - 1]).0);
    } else {
      RecordsAdvance(m, start, calls, i, j - 1);
      var s := Before(m, start, calls, j - 1);
      AdvancedOn(Before(m, start, calls, i), s, m(s, calls[j - 1]).0);
    }
  }

  /** A PERMIT that names an escalation takes it from decided to resolved. */
  predicate Resolves(s: State, t: State, d: Decision) {
    d.verdict == Permit && d.escalation.Some? ==>
      && d.escalation.value in s.escalations && s.escalations[d.escalation.value].status == Escalations.Decided
      && d.escalation.value in t.escalations && t.escalations[d.escalation.value].status == Escalations.Resolved
  }

  ghost predicate PermitsResolve(m: Machine) {
    forall s: State, c: Call :: Resolves(s, m(s, c).0, m(s, c).1)
  }

  lemma MediatorPermitsResolve(k: Config)
    ensures PermitsResolve(Mediates(k))
  {
    forall s: State, c: Call ensures Resolves(s, Mediates(k)(s, c).0, Mediates(k)(s, c).1) {
      var d := Gated(k, s, c).1;
      if d.verdict == Permit && d.escalation.Some? {
        PermitResolves(k, s, c, d.escalation.value);
      }
    }
  }

  lemma ResolvedOnce(m: Machine, start: State, calls: seq<Call>, i: nat, j: nat)
    requires AdvancesRecords(m) && PermitsResolve(m) && Escalations.WellFormed(start.escalations) && i < j < |calls|
    requires DecisionAt(m, start, calls, i).verdict == Permit && DecisionAt(m, start, calls, j).verdict == Permit
    requires DecisionAt(m, start, calls, i).escalation.Some?
    ensures DecisionAt(m, start, calls, i).escalation != DecisionAt(m, start, calls, j).escalation
  {
    var s, u := Before(m, start, calls, i), Before(m, start, calls, j);
    var t := Before(m, start, calls, i + 1);
    RecordsAdvance(m, start, calls, i + 1, j);
    assert Resolves(s, t, DecisionAt(m, start, calls, i));
    assert Resolves(u, Before(m, start, calls, j + 1), DecisionAt(m, start, calls, j));
    var id := DecisionAt(m, start, calls, i).escalation.value;
    assert Escalations.Follows(t.escalations[id], u.escalations[id]);
  }

  /** At most one PERMIT per escalation, ever, in any sequential run, whatever fails. */
  lemma OnePermitPerEscalation(k: Config, start: State, calls: seq<Call>, i: nat, j: nat)
    requires Escalations.WellFormed(start.escalations) && i < j < |calls|
    requires DecisionAt(Mediates(k), start, calls, i).verdict == Permit && DecisionAt(Mediates(k), start, calls, j).verdict == Permit
    requires DecisionAt(Mediates(k), start, calls, i).escalation.Some?
    ensures DecisionAt(Mediates(k), start, calls, i).escalation != DecisionAt(Mediates(k), start, calls, j).escalation
  {
    MediatorAdvancesRecords(k);
    MediatorPermitsResolve(k);
    ResolvedOnce(Mediates(k), start, calls, i, j);
  }

  // ---------------------------------------------------------------- decisions and the audit log

  function Granted(log: seq<AuditEntry>): seq<AuditEntry> {
    if log == [] then []
    else Granted(log[..|log| - 1]) + if log[|log| - 1].granted then [log[|log| - 1]] else []
  }

  /** The indices of the calls that returned PERMIT among the first n, in order. */
  function Permits(m: Machine, start: State, calls: seq<Call>, n: nat): (r: seq<nat>)
    requires n <= |calls|
    ensures forall i | 0 <= i < |r| :: r[i] < n
  {
    if n == 0 then []
    else Permits(m, start, calls, n - 1) + if DecisionAt(m, start, calls, n - 1).verdict == Permit then [n - 1] else []
  }

  lemma GrantedGrows(s: seq<AuditEntry>, t: seq<AuditEntry>)
    requires AtMostOneMore(s, t)
    ensures Granted(t) == Granted(s) + if t != s && t[|s|].granted then [t[|s|]] else []
  {
  }

  /** The entries and the calls at these indices belong together, one by one. */
  predicate ToldInOrder(k: Config, m: Machine, start: State, calls: seq<Call>, entries: seq<AuditEntry>, permits: seq<nat>)
    requires forall i | 0 <= i < |permits| :: permits[i] < |calls|
  {
    |entries| == |permits| &&
    forall i | 0 <= i < |permits| :: Tells(k, entries[i], calls[permits[i]], DecisionAt(m, start, calls, permits[i]))
  }

  lemma ToldOneMore(k: Config, m: Machine, start: State, calls: seq<Call>, entries: seq<AuditEntry>, permits: seq<nat>,
                    entry: AuditEntry, n: nat)
    requires forall i | 0 <= i < |permits| :: permits[i] < |calls|
    requires ToldInOrder(k, m, start, calls, entries, permits) && n < |calls|
    requires Tells(k, entry, calls[n], DecisionAt(m, start, calls, n))
    ensures ToldInOrder(k, m, start, calls, entries + [entry], permits + [n])
  {
  }

  ghost predicate LogsEveryPermit(k: Config, m: Machine) {
    forall s: State, c: Call :: HashNotEmpty(c) ==> Logged(k, s.audit, c, m(s, c).0.audit, m(s, c).1)
  }

  lemma MediatorLogsEveryPermit(k: Config)
    ensures LogsEveryPermit(k, Mediates(k))
  {
    forall s: State, c: Call | HashNotEmpty(c) ensures Logged(k, s.audit, c, Mediates(k)(s, c).0.audit, Mediates(k)(s, c).1) {
      CallIsLogged(k, s, c);
    }
  }

  predicate HashesNotEmpty(calls: seq<Call>) {
    forall i | 0 <= i < |calls| :: HashNotEmpty(calls[i])
  }

  lemma {:induction false} ToldThroughout(k: Config, m: Machine, start: State, calls: seq<Call>, n: nat)
    requires n <= |calls| && LogsEveryPermit(k, m) && HashesNotEmpty(calls) && start.audit == []
    ensures ToldInOrder(k, m, start, calls, Granted(Before(m, start, calls, n).audit), Permits(m, start, calls, n))
    ensures |Before(m, start, calls, n).audit| <= n
  {
    if n > 0 {
      var s, t := Before(m, start, calls, n - 1), Before(m, start, calls, n);
      var d := DecisionAt(m, start, calls, n - 1);
      ToldThroughout(k, m, start, calls, n - 1);
      assert Logged(k, s.audit, calls[n - 1], t.audit, d);
      GrantedGrows(s.audit, t.audit);
      if d.verdict == Permit {
        ToldOneMore(k, m, start, calls, Granted(s.audit), Permits(m, start, calls, n - 1), t.audit[|s.audit|], n - 1);
      }
    }
  }

  /** Returned PERMITs and granting entries correspond one to one, in order; and no call appends twice. */
  lemma PermitsAreTheGrantedEntries(k: Config, start: State, calls: seq<Call>, n: nat)
    requires n <= |calls| && HashesNotEmpty(calls) && start.audit == []
    ensures ToldInOrder(k, Mediates(k), start, calls, Granted(Before(Mediates(k), start, calls, n).audit),
                        Permits(Mediates(k), start, calls, n))
    ensures |Before(Mediates(k), start, calls, n).audit| <= n
  {
    MediatorLogsEveryPermit(k);
    ToldThroughout(k, Mediates(k), start, calls, n);
  }
}
