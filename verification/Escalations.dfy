/** The escalation lifecycle of axiomgate_kernel/escalation.py: PENDING, DECIDED, RESOLVED. */
module Escalations {
  import opened Domain
  import opened Grants

  datatype Status = Pending | Decided | Resolved
  {
    function Rank(): nat {
      match this
      case Pending => 0
      case Decided => 1
      case Resolved => 2
    }
  }

  datatype Escalation = Escalation(
    id: string,
    request: string,
    principal: string,
    payload: string,
    reason: ReasonClass,
    status: Status,
    ownerDecision: Option<string>,
    ownerPrincipal: Option<string>)

  datatype Refusal = Exists | NotFound | InvalidDecision | NotPending | NotDecided

  type Items = map<string, Escalation>

  /** A new record is pending and undecided. */
  function Filed(id: string, request: string, principal: string, payload: string, reason: ReasonClass): Escalation {
    Escalation(id, request, principal, payload, reason, Pending, None, None)
  }

  predicate IsDecision(decision: string) {
    decision == "permit" || decision == "deny"
  }

  function RefuseDecide(items: Items, id: string, decision: string): (why: Option<Refusal>)
    ensures why.None? <==> IsDecision(decision) && id in items && items[id].status == Pending
  {
    if !IsDecision(decision) then Some(InvalidDecision)
    else if id !in items then Some(NotFound)
    else if items[id].status != Pending then Some(NotPending)
    else None
  }

  function DecideOn(items: Items, id: string, decision: string, owner: string): Items {
    if RefuseDecide(items, id, decision).Some? then items
    else items[id := items[id].(status := Decided, ownerDecision := Some(decision), ownerPrincipal := Some(owner))]
  }

  function ResolveIn(items: Items, id: string): Items {
    if id in items && items[id].status == Decided then items[id := items[id].(status := Resolved)] else items
  }

  class EscalationStore {
    var items: Items

    constructor ()
      ensures items == map[]
    {
      items := map[];
    }

    method Create(id: string, request: string, principal: string, payload: string, reason: ReasonClass) returns (refused: Option<Refusal>)
      modifies this
      ensures refused.Some? <==> id in old(items)
      ensures items == if refused.Some? then old(items) else old(items)[id := Filed(id, request, principal, payload, reason)]
    {
      if id in items { return Some(Exists); }
      items := items[id := Escalation(id, request, principal, payload, reason, Pending, None, None)];
      return None;
    }

    method Lookup(id: string) returns (record: Option<Escalation>)
      ensures record == if id in items then Some(items[id]) else None
    {
      if id in items { return Some(items[id]); }
      return None;
    }

    method MediatorDecide(id: string, decision: string, owner: string) returns (refused: Option<Refusal>)
      modifies this
      ensures refused == RefuseDecide(old(items), id, decision)
      ensures items == DecideOn(old(items), id, decision, owner)
    {
      if decision != "permit" && decision != "deny" { return Some(InvalidDecision); }
      if id !in items { return Some(NotFound); }
      var record := items[id];
      if record.status != Pending { return Some(NotPending); }
      items := items[id := Escalation(record.id, record.request, record.principal, record.payload, record.reason, Decided,
                                      Some(decision), Some(owner))];
      return None;
    }

    method MediatorResolve(id: string) returns (refused: Option<Refusal>)
      modifies this
      ensures refused.None? <==> id in old(items) && old(items)[id].status == Decided
      ensures items == ResolveIn(old(items), id)
    {
      if id !in items { return Some(NotFound); }
      var record := items[id];
      if record.status != Decided { return Some(NotDecided); }
      items := items[id := Escalation(record.id, record.request, record.principal, record.payload, record.reason, Resolved,
                                      record.ownerDecision, record.ownerPrincipal)];
      return None;
    }
  }

  /** The later record is the same escalation, further along: nothing but status and the decision ever changes, the
      status never goes back, and a decision once made stays. */
  predicate Follows(a: Escalation, b: Escalation) {
    && b.id == a.id && b.request == a.request && b.principal == a.principal && b.payload == a.payload && b.reason == a.reason
    && a.status.Rank() <= b.status.Rank()
    && (a.status != Pending ==> b.ownerDecision == a.ownerDecision && b.ownerPrincipal == a.ownerPrincipal)
  }

  /** Decided records carry a decision and who made it; pending ones carry neither. */
  predicate WellFormed(items: Items) {
    forall id | id in items :: items[id].id == id
      && (items[id].status == Pending <==> items[id].ownerDecision.None?)
      && (items[id].ownerDecision.Some? ==> IsDecision(items[id].ownerDecision.value) && items[id].ownerPrincipal.Some?)
  }

  datatype Op =
    | File(id: string, request: string, principal: string, payload: string, reason: ReasonClass)
    | Decide(id: string, decision: string, owner: string)
    | Resolve(id: string)

  function After(items: Items, op: Op): Items {
    match op
    case File(id, request, principal, payload, reason) =>
      if id in items then items else items[id := Filed(id, request, principal, payload, reason)]
    case Decide(id, decision, owner) => DecideOn(items, id, decision, owner)
    case Resolve(id) => ResolveIn(items, id)
  }

  function Run(items: Items, ops: seq<Op>): Items {
    if ops == [] then items else After(Run(items, ops[..|ops| - 1]), ops[|ops| - 1])
  }

  predicate AllFollow(a: Items, b: Items) {
    forall id | id in a :: id in b && Follows(a[id], b[id])
  }

  lemma AfterAdvances(items: Items, op: Op)
    requires WellFormed(items)
    ensures WellFormed(After(items, op)) && AllFollow(items, After(items, op))
  {
  }

  lemma FollowsOn(a: Items, b: Items, c: Items)
    requires WellFormed(b) && AllFollow(a, b) && AllFollow(b, c)
    ensures AllFollow(a, c)
  {
    forall id | id in a ensures id in c && Follows(a[id], c[id]) {
      assert Follows(a[id], b[id]) && Follows(b[id], c[id]);
    }
  }

  /** Through any run, records stay well formed and every record only moves forward. */
  lemma {:induction false} LifecycleOnlyAdvances(items: Items, ops: seq<Op>)
    requires WellFormed(items)
    ensures WellFormed(Run(items, ops)) && AllFollow(items, Run(items, ops))
  {
    if ops != [] {
      var before := ops[..|ops| - 1];
      LifecycleOnlyAdvances(items, before);
      AfterAdvances(Run(items, before), ops[|ops| - 1]);
      FollowsOn(items, Run(items, before), Run(items, ops));
    }
  }
}
