/** The record of what ran: ExecutionLog of axiomgate_kernel/execution.py. */
module ExecutionLogs {
  import opened Domain

  /** One redemption. Only rolledBack ever changes. */
  datatype Execution = Execution(number: nat, request: string, principal: string, escalation: string, rolledBack: bool)

  predicate Numbered(log: seq<Execution>) {
    forall i | 0 <= i < |log| :: log[i].number == i + 1
  }

  function Recorded(log: seq<Execution>, request: string, principal: string, escalation: string): seq<Execution> {
    log + [Execution(|log| + 1, request, principal, escalation, false)]
  }

  /** Position of the first record carrying this number. */
  function Find(log: seq<Execution>, number: nat): (at: Option<nat>)
    ensures at.Some? ==> at.value < |log| && log[at.value].number == number
    ensures at.Some? ==> forall i | 0 <= i < at.value :: log[i].number != number
    ensures at.None? ==> forall i | 0 <= i < |log| :: log[i].number != number
  {
    if log == [] then None
    else if log[0].number == number then Some(0)
    else
      var rest := Find(log[1..], number);
      assert forall i | 1 <= i < |log| :: log[i] == log[1..][i - 1];
      if rest.None? then None else Some(rest.value + 1)
  }

  /** The log with one record marked; a number that no record carries is refused. */
  function Marked(log: seq<Execution>, number: nat): seq<Execution> {
    var at := Find(log, number);
    if at.None? then log else log[at.value := log[at.value].(rolledBack := true)]
  }

  class ExecutionLog {
    var entries: seq<Execution>

    constructor ()
      ensures entries == []
    {
      entries := [];
    }

    method Record(request: string, principal: string, escalation: string) returns (number: nat)
      modifies this
      ensures entries == Recorded(old(entries), request, principal, escalation) && number == |entries|
    {
      number := |entries| + 1;
      entries := entries + [Execution(number, request, principal, escalation, false)];
    }

    method MarkRolledBack(number: nat) returns (ok: bool)
      modifies this
      ensures entries == Marked(old(entries), number)
      ensures ok <==> exists i :: 0 <= i < |old(entries)| && old(entries)[i].number == number
    {
      for i := 0 to |entries|
        invariant entries == old(entries)
        invariant forall j | 0 <= j < i :: entries[j].number != number
      {
        if entries[i].number == number {
          assert Find(entries, number) == Some(i);
          entries := entries[i := entries[i].(rolledBack := true)];
          return true;
        }
      }
      return false;
    }

    /** The most recent redemption for a request. */
    method ForRequest(request: string) returns (found: Option<Execution>)
      ensures found.None? <==> forall i | 0 <= i < |entries| :: entries[i].request != request
      ensures found.Some? ==> exists i :: 0 <= i < |entries| && entries[i] == found.value && found.value.request == request
                                          && forall j | i < j < |entries| :: entries[j].request != request
    {
      var i := |entries|;
      while i > 0
        invariant 0 <= i <= |entries|
        invariant forall j | i <= j < |entries| :: entries[j].request != request
      {
        i := i - 1;
        if entries[i].request == request { return Some(entries[i]); }
      }
      return None;
    }
  }
}

/** Reserved one-shot grants: axiomgate_kernel/grant.py. Strings compared for equality only are kept as they
    are; action and risk are kept as the enumeration members whose values the source stores. */
module Grants {
  import opened Domain
  import opened ExecutionLogs

  datatype ReasonClass = MandatoryAction | MandatoryRisk | PolicyReason | ProvenanceReason

  /** The eleven values a redemption must present. */
  datatype Terms = Terms(
    principal: string,
    agent: string,
    request: string,
    action: Action,
    domain: string,
    risk: Risk,
    payload: string,
    capability: string,
    scope: string,
    policyHash: string,
    provenance: string)

  datatype Grant = Grant(
    escalation: string,
    terms: Terms,
    reason: ReasonClass,
    ownerDecision: string,
    expires: int,
    consumed: bool)

  datatype Refusal = NoGrant | AlreadyConsumed | NoOwnerPermit | Expired | Mismatch(what: string)

  /** All terms but those the reason for the escalation releases: the policy hash when the policy was the reason,
      the provenance identity when provenance was, and the capability in both of these cases. */
  predicate Binds(g: Grant, t: Terms) {
    && g.terms.principal == t.principal && g.terms.agent == t.agent && g.terms.request == t.request
    && g.terms.action == t.action && g.terms.domain == t.domain && g.terms.risk == t.risk
    && g.terms.payload == t.payload
    && (g.reason != PolicyReason && g.reason != ProvenanceReason ==>
          g.terms.capability == t.capability && g.terms.scope == t.scope)
    && (g.reason != PolicyReason ==> g.terms.policyHash == t.policyHash)
    && (g.reason != ProvenanceReason ==> g.terms.provenance == t.provenance)
  }

  /** The name of the first binding that does not match. */
  function FirstMismatch(g: Grant, t: Terms): (name: Option<string>)
    ensures name.None? <==> Binds(g, t)
  {
    if g.terms.principal != t.principal then Some("principal")
    else if g.terms.agent != t.agent then Some("agent_id")
    else if g.terms.request != t.request then Some("request_id")
    else if g.terms.action != t.action then Some("action")
    else if g.terms.domain != t.domain then Some("domain")
    else if g.terms.risk != t.risk then Some("risk")
    else if g.terms.payload != t.payload then Some("payload")
    else if g.reason != PolicyReason && g.reason != ProvenanceReason && g.terms.capability != t.capability
    then Some("capability_id")
    else if g.reason != PolicyReason && g.reason != ProvenanceReason && g.terms.scope != t.scope
    then Some("capability_scope")
    else if g.reason != PolicyReason && g.terms.policyHash != t.policyHash then Some("policy")
    else if g.reason != ProvenanceReason && g.terms.provenance != t.provenance then Some("provenance")
    else None
  }

  function WhyNot(g: Grant, t: Terms, now: int): (why: Option<Refusal>)
    ensures why.None? <==> !g.consumed && g.ownerDecision == "permit" && now < g.expires && Binds(g, t)
  {
    if g.consumed then Some(AlreadyConsumed)
    else if g.ownerDecision != "permit" then Some(NoOwnerPermit)
    else if now >= g.expires then Some(Expired)
    else if FirstMismatch(g, t).Some? then Some(Mismatch(FirstMismatch(g, t).value))
    else None
  }

  /** The bindings in the order in which they are compared. */
  const BINDINGS: seq<string> :=
    ["principal", "agent_id", "request_id", "action", "domain", "risk", "payload", "capability_id", "capability_scope", "policy",
     "provenance"]

  /** Binding i is in force for the grant's reason, and differs from what is presented. */
  predicate Differs(g: Grant, t: Terms, i: nat) {
    var released := g.reason == PolicyReason || g.reason == ProvenanceReason;
    match i
    case 0 => g.terms.principal != t.principal
    case 1 => g.terms.agent != t.agent
    case 2 => g.terms.request != t.request
    case 3 => g.terms.action != t.action
    case 4 => g.terms.domain != t.domain
    case 5 => g.terms.risk != t.risk
    case 6 => g.terms.payload != t.payload
    case 7 => !released && g.terms.capability != t.capability
    case 8 => !released && g.terms.scope != t.scope
    case 9 => g.reason != PolicyReason && g.terms.policyHash != t.policyHash
    case 10 => g.reason != ProvenanceReason && g.terms.provenance != t.provenance
    case _ => false
  }

  /** A refused redemption is told the first binding that differs, and one that binds nothing else is not refused. */
  lemma FirstMismatchTold(g: Grant, t: Terms, i: nat)
    requires Differs(g, t, i) && forall j: nat | j < i :: !Differs(g, t, j)
    ensures i < |BINDINGS| && FirstMismatch(g, t) == Some(BINDINGS[i])
  {
    assert i > 0 ==> !Differs(g, t, 0);
    assert i > 1 ==> !Differs(g, t, 1);
    assert i > 2 ==> !Differs(g, t, 2);
    assert i > 3 ==> !Differs(g, t, 3);
    assert i > 4 ==> !Differs(g, t, 4);
    assert i > 5 ==> !Differs(g, t, 5);
    assert i > 6 ==> !Differs(g, t, 6);
    assert i > 7 ==> !Differs(g, t, 7);
    assert i > 8 ==> !Differs(g, t, 8);
    assert i > 9 ==> !Differs(g, t, 9);
  }

  /** Nothing differs exactly when the grant binds. */
  lemma BindsExactlyWhenNothingDiffers(g: Grant, t: Terms)
    ensures Binds(g, t) <==> forall i: nat :: !Differs(g, t, i)
  {
    if forall i: nat :: !Differs(g, t, i) {
      assert !Differs(g, t, 0) && !Differs(g, t, 1) && !Differs(g, t, 2) && !Differs(g, t, 3) && !Differs(g, t, 4) && !Differs(g, t, 5);
      assert !Differs(g, t, 6) && !Differs(g, t, 7) && !Differs(g, t, 8) && !Differs(g, t, 9) && !Differs(g, t, 10);
    }
  }

  // ---------------------------------------------------------------- the store as one cell per escalation

  /** A grant with the number of the execution record its redemption left. */
  datatype Cell = Cell(grant: Grant, execution: Option<nat>)

  /** log is None when the store was built without an execution log. */
  datatype GrantState = GrantState(cells: map<string, Cell>, log: Option<seq<Execution>>)

  function Created(s: GrantState, g: Grant): GrantState {
    s.(cells := s.cells[g.escalation := Cell(g, None)])
  }

  function Attached(s: GrantState, id: string, decision: string): GrantState {
    if id !in s.cells then s
    else s.(cells := s.cells[id := s.cells[id].(grant := s.cells[id].grant.(ownerDecision := decision))])
  }

  function RefuseRedeem(s: GrantState, id: string, t: Terms, now: int): Option<Refusal> {
    if id !in s.cells then Some(NoGrant) else WhyNot(s.cells[id].grant, t, now)
  }

  function RedeemedCell(s: GrantState, c: Cell): Cell {
    Cell(c.grant.(consumed := true), if s.log.None? then c.execution else Some(|s.log.value| + 1))
  }

  function LogAfterRedeem(s: GrantState, g: Grant): Option<seq<Execution>> {
    if s.log.None? then None else Some(Recorded(s.log.value, g.terms.request, g.terms.principal, g.escalation))
  }

  function Redeemed(s: GrantState, id: string): GrantState
    requires id in s.cells
  {
    GrantState(s.cells[id := RedeemedCell(s, s.cells[id])], LogAfterRedeem(s, s.cells[id].grant))
  }

  /** Undo of a redemption: does nothing unless the grant is consumed. */
  function Unconsumed(s: GrantState, id: string): GrantState {
    if id !in s.cells || !s.cells[id].grant.consumed then s
    else
      var c := s.cells[id];
      GrantState(s.cells[id := Cell(c.grant.(consumed := false), None)],
                 if s.log.None? || c.execution.None? then s.log else Some(Marked(s.log.value, c.execution.value)))
  }

  // ---------------------------------------------------------------- the store object

  /** The three dictionaries of the store. */
  datatype Tables = Tables(items: map<string, Grant>, byEscalation: map<string, string>, execSeq: map<string, nat>)
  {
    /** Every escalation has its own grant id, and a record number belongs to a grant. */
    ghost predicate Valid() {
      && (forall e | e in byEscalation :: byEscalation[e] in items && items[byEscalation[e]].escalation == e)
      && (forall g | g in execSeq :: g in items)
    }

    ghost function CellOf(gid: string): Cell
      requires gid in items
    {
      Cell(items[gid], if gid in execSeq then Some(execSeq[gid]) else None)
    }

    ghost function Cells(): map<string, Cell>
      requires Valid()
    {
      map e | e in byEscalation :: CellOf(byEscalation[e])
    }

    /** Changing what one grant id maps to changes one cell. */
    lemma OneGrantChanges(after: Tables, id: string)
      requires Valid() && id in byEscalation && after.byEscalation == byEscalation
      requires var gid := byEscalation[id];
               && after.items.Keys == items.Keys && after.items[gid].escalation == id
               && after.items - {gid} == items - {gid} && after.execSeq - {gid} == execSeq - {gid}
      ensures after.Valid() && after.Cells() == Cells()[id := after.CellOf(byEscalation[id])]
    {
      var gid := byEscalation[id];
      forall e | e in byEscalation && e != id ensures after.CellOf(byEscalation[e]) == CellOf(byEscalation[e]) {
        var other := byEscalation[e];
        assert other in items - {gid} && other in after.items - {gid};
        assert other in execSeq <==> other in execSeq - {gid};
        assert other in after.execSeq <==> other in after.execSeq - {gid};
      }
      forall e | e in byEscalation ensures after.items[byEscalation[e]].escalation == e {
        if e != id {
          assert byEscalation[e] in items - {gid};
        }
      }
      forall g | g in after.execSeq ensures g in after.items {
        if g != gid { assert g in after.execSeq - {gid}; }
      }
    }
  }

  class ReservedGrantStore {
    const ttl: int
    const executions: ExecutionLog?
    var items: map<string, Grant>             // by grant id
    var byEscalation: map<string, string>     // escalation id to grant id
    var execSeq: map<string, nat>             // grant id to execution record

    constructor (ttl: int, executions: ExecutionLog?)
      ensures this.ttl == ttl && this.executions == executions && Valid()
      ensures State() == GrantState(map[], if executions == null then None else Some(executions.entries))
    {
      this.ttl := ttl;
      this.executions := executions;
      items, byEscalation, execSeq := map[], map[], map[];
    }

    ghost function Dictionaries(): Tables
      reads this
    {
      Tables(items, byEscalation, execSeq)
    }

    ghost predicate Valid()
      reads this
    {
      Dictionaries().Valid()
    }

    ghost function State(): GrantState
      reads this, executions
      requires Valid()
    {
      GrantState(Dictionaries().Cells(), if executions == null then None else Some(executions.entries))
    }

    /** Grant ids are fresh: the source draws them from a UUID. */
    method CreatePendingContext(gid: string, escalation: string, terms: Terms, reason: ReasonClass, now: int)
      requires Valid() && gid !in items
      modifies this
      ensures Valid() && State() == Created(old(State()), Grant(escalation, terms, reason, "", now + ttl, false))
    {
      var grant := Grant(escalation, terms, reason, "", now + ttl, false);
      items := items[gid := grant];
      byEscalation := byEscalation[escalation := gid];
    }

    method AttachOwnerDecision(id: string, decision: string)
      requires Valid()
      modifies this
      ensures Valid() && State() == Attached(old(State()), id, decision)
      ensures items.Keys == old(items.Keys)
    {
      if id !in byEscalation { return; }
      var gid := byEscalation[id];
      items := items[gid := items[gid].(ownerDecision := decision)];
      old(Dictionaries()).OneGrantChanges(Dictionaries(), id);
    }

    method GetByEscalation(id: string) returns (g: Option<Grant>)
      requires Valid()
      ensures g == if id in State().cells then Some(State().cells[id].grant) else None
    {
      if id !in byEscalation { return None; }
      assert State().cells[id].grant == items[byEscalation[id]];
      return Some(items[byEscalation[id]]);
    }

    method ConsumeIfValid(id: string, terms: Terms, now: int) returns (refused: Option<Refusal>)
      requires Valid()
      modifies this, executions
      ensures Valid() && items.Keys == old(items.Keys)
      ensures refused == RefuseRedeem(old(State()), id, terms, now)
      ensures State() == if refused.Some? then old(State()) else Redeemed(old(State()), id)
    {
      if id !in byEscalation { return Some(NoGrant); }
      var gid := byEscalation[id];
      var grant := items[gid];
      if grant.consumed { return Some(AlreadyConsumed); }
      if grant.ownerDecision != "permit" { return Some(NoOwnerPermit); }
      if now >= grant.expires { return Some(Expired); }
      var mismatch := FirstMismatch(grant, terms);
      if mismatch.Some? { return Some(Mismatch(mismatch.value)); }
      items := items[gid := grant.(consumed := true)];
      if executions != null {
        var number := executions.Record(grant.terms.request, grant.terms.principal, grant.escalation);
        execSeq := execSeq[gid := number];
      }
      old(Dictionaries()).OneGrantChanges(Dictionaries(), id);
      return None;
    }

    method Unconsume(id: string)
      requires Valid()
      modifies this, executions
      ensures Valid() && State() == Unconsumed(old(State()), id)
      ensures items.Keys == old(items.Keys)
    {
      if id !in byEscalation { return; }
      var gid := byEscalation[id];
      if !items[gid].consumed { return; }
      items := items[gid := items[gid].(consumed := false)];
      var number := if gid in execSeq then Some(execSeq[gid]) else None;
      execSeq := execSeq - {gid};
      old(Dictionaries()).OneGrantChanges(Dictionaries(), id);
      if executions != null && number.Some? {
        var ok := executions.MarkRolledBack(number.value);
      }
    }
  }

  // ---------------------------------------------------------------- what the store and its log keep together

  /** The cell and the log agree about one escalation: a consumed grant names a live record of its own, an
      unconsumed one names none. */
  predicate CellAgrees(log: seq<Execution>, id: string, c: Cell) {
    && c.grant.escalation == id
    && (c.grant.consumed <==> c.execution.Some?)
    && (c.execution.Some? ==> 1 <= c.execution.value <= |log| && RecordFits(log[c.execution.value - 1], c.grant))
  }

  predicate RecordFits(e: Execution, g: Grant) {
    !e.rolledBack && e.escalation == g.escalation && e.request == g.terms.request && e.principal == g.terms.principal
  }

  /** A live record is the one its escalation's cell names. */
  predicate LiveIsNamed(cells: map<string, Cell>, e: Execution) {
    !e.rolledBack ==> e.escalation in cells && cells[e.escalation].execution == Some(e.number)
  }

  predicate Coupled(s: GrantState) {
    s.log.Some? && Numbered(s.log.value)
    && (forall id | id in s.cells :: CellAgrees(s.log.value, id, s.cells[id]))
    && (forall i | 0 <= i < |s.log.value| :: LiveIsNamed(s.cells, s.log.value[i]))
  }

  /** Position i holds a record that stands, for this escalation. */
  predicate LiveFor(log: seq<Execution>, id: string, i: nat) {
    i < |log| && !log[i].rolledBack && log[i].escalation == id
  }

  /** In a coupled store a grant is consumed exactly when one live record stands for it, and then exactly one. */
  lemma ConsumedExactlyOneLive(s: GrantState, id: string)
    requires Coupled(s) && id in s.cells
    ensures s.cells[id].grant.consumed <==> exists i: nat :: LiveFor(s.log.value, id, i)
    ensures forall i: nat, j: nat :: LiveFor(s.log.value, id, i) && LiveFor(s.log.value, id, j) ==> i == j
  {
    var log, c := s.log.value, s.cells[id];
    assert CellAgrees(log, id, c);
    if c.grant.consumed {
      assert LiveFor(log, id, c.execution.value - 1);
    }
    forall i: nat | LiveFor(log, id, i) ensures c.execution == Some(i + 1) {
      assert LiveIsNamed(s.cells, log[i]);
    }
  }

  lemma CreateKeepsCoupled(s: GrantState, g: Grant)
    requires Coupled(s) && g.escalation !in s.cells && !g.consumed
    ensures Coupled(Created(s, g))
  {
    var s' := Created(s, g);
    forall id | id in s'.cells ensures CellAgrees(s.log.value, id, s'.cells[id]) {
      if id != g.escalation { assert CellAgrees(s.log.value, id, s.cells[id]); }
    }
    forall i | 0 <= i < |s.log.value| ensures LiveIsNamed(s'.cells, s.log.value[i]) {
      assert LiveIsNamed(s.cells, s.log.value[i]);
    }
  }

  lemma AttachKeepsCoupled(s: GrantState, id: string, decision: string)
    requires Coupled(s)
    ensures Coupled(Attached(s, id, decision))
  {
    var s' := Attached(s, id, decision);
    forall k | k in s'.cells ensures CellAgrees(s.log.value, k, s'.cells[k]) {
      assert CellAgrees(s.log.value, k, s.cells[k]);
    }
    forall i | 0 <= i < |s.log.value| ensures LiveIsNamed(s'.cells, s.log.value[i]) {
      assert LiveIsNamed(s.cells, s.log.value[i]);
    }
  }

  lemma RedeemKeepsCoupled(s: GrantState, id: string)
    requires Coupled(s) && id in s.cells && !s.cells[id].grant.consumed
    ensures Coupled(Redeemed(s, id))
  {
    var s' := Redeemed(s, id);
    var log, log' := s.log.value, s'.log.value;
    assert CellAgrees(log, id, s.cells[id]);
    forall k | k in s'.cells ensures CellAgrees(log', k, s'.cells[k]) {
      assert CellAgrees(log, k, s.cells[k]);
    }
    forall i | 0 <= i < |log'| ensures LiveIsNamed(s'.cells, log'[i]) {
      if i < |log| { assert LiveIsNamed(s.cells, log[i]); }
    }
  }

  lemma MarkedAt(log: seq<Execution>, number: nat)
    requires Numbered(log) && 1 <= number <= |log|
    ensures Marked(log, number) == log[number - 1 := log[number - 1].(rolledBack := true)]
  {
    assert log[number - 1].number == number;
  }

  lemma UnconsumeKeepsCoupled(s: GrantState, id: string)
    requires Coupled(s)
    ensures Coupled(Unconsumed(s, id))
  {
    var s' := Unconsumed(s, id);
    if id in s.cells && s.cells[id].grant.consumed {
      var log, log' := s.log.value, s'.log.value;
      assert CellAgrees(log, id, s.cells[id]);
      MarkedAt(log, s.cells[id].execution.value);
      forall k | k in s'.cells ensures CellAgrees(log', k, s'.cells[k]) {
        assert CellAgrees(log, k, s.cells[k]);
      }
      forall i | 0 <= i < |log'| ensures LiveIsNamed(s'.cells, log'[i]) {
        assert LiveIsNamed(s.cells, log[i]);
      }
    }
  }

  // ---------------------------------------------------------------- runs of the store

  datatype Op =
    | Create(grant: Grant)
    | Attach(id: string, decision: string)
    | Redeem(id: string, terms: Terms, now: int)
    | Undo(id: string)

  function After(s: GrantState, op: Op): GrantState {
    match op
    case Create(grant) => Created(s, grant.(ownerDecision := "", consumed := false))
    case Attach(id, decision) => Attached(s, id, decision)
    case Redeem(id, terms, now) => if RefuseRedeem(s, id, terms, now).Some? then s else Redeemed(s, id)
    case Undo(id) => Unconsumed(s, id)
  }

  function Run(s: GrantState, ops: seq<Op>): GrantState {
    if ops == [] then s else After(Run(s, ops[..|ops| - 1]), ops[|ops| - 1])
  }

  /** Each escalation gets its grant once, as the mediator's fresh escalation ids guarantee. */
  predicate CreatesOnce(s: GrantState, ops: seq<Op>) {
    forall i | 0 <= i < |ops| && ops[i].Create? :: ops[i].grant.escalation !in Run(s, ops[..i]).cells
  }

  lemma CreatesOncePrefix(s: GrantState, ops: seq<Op>, n: nat)
    requires CreatesOnce(s, ops) && n <= |ops|
    ensures CreatesOnce(s, ops[..n])
  {
    forall i | 0 <= i < n && ops[..n][i].Create? ensures ops[..n][i].grant.escalation !in Run(s, ops[..n][..i]).cells {
      assert ops[..n][..i] == ops[..i];
    }
  }

  lemma AfterKeepsCoupled(s: GrantState, op: Op)
    requires Coupled(s) && (op.Create? ==> op.grant.escalation !in s.cells)
    ensures Coupled(After(s, op))
  {
    match op
    case Create(grant) => CreateKeepsCoupled(s, grant.(ownerDecision := "", consumed := false));
    case Attach(id, decision) => AttachKeepsCoupled(s, id, decision);
    case Redeem(id, terms, now) => if RefuseRedeem(s, id, terms, now).None? { RedeemKeepsCoupled(s, id); }
    case Undo(id) => UnconsumeKeepsCoupled(s, id);
  }

  /** Redemption and execution log stay coupled through any run. */
  lemma {:induction false} RunsStayCoupled(s: GrantState, ops: seq<Op>)
    requires Coupled(s) && CreatesOnce(s, ops)
    ensures Coupled(Run(s, ops))
  {
    if ops != [] {
      var n := |ops| - 1;
      CreatesOncePrefix(s, ops, n);
      RunsStayCoupled(s, ops[..n]);
      AfterKeepsCoupled(Run(s, ops[..n]), ops[n]);
    }
  }

  /** The later log extends the earlier one: records keep their place and content, and a mark is never unset. */
  predicate Extends(a: seq<Execution>, b: seq<Execution>) {
    |a| <= |b| && forall i | 0 <= i < |a| ::
      b[i].(rolledBack := false) == a[i].(rolledBack := false) && (a[i].rolledBack ==> b[i].rolledBack)
  }

  lemma AfterExtends(s: GrantState, op: Op)
    requires s.log.Some?
    ensures After(s, op).log.Some? && Extends(s.log.value, After(s, op).log.value)
  {
  }

  lemma {:induction false} HistoryIsNeverRewritten(s: GrantState, ops: seq<Op>, k: nat)
    requires s.log.Some? && k <= |ops|
    ensures Run(s, ops[..k]).log.Some? && Run(s, ops).log.Some?
    ensures Extends(Run(s, ops[..k]).log.value, Run(s, ops).log.value)
    decreases |ops|, |ops| - k
  {
    if k < |ops| {
      var n := |ops| - 1;
      assert ops[..n][..k] == ops[..k];
      HistoryIsNeverRewritten(s, ops[..n], k);
      AfterExtends(Run(s, ops[..n]), ops[n]);
    } else {
      assert ops[..k] == ops;
      LogStaysAttached(s, ops);
    }
  }

  lemma {:induction false} LogStaysAttached(s: GrantState, ops: seq<Op>)
    requires s.log.Some?
    ensures Run(s, ops).log.Some?
  {
    if ops != [] {
      LogStaysAttached(s, ops[..|ops| - 1]);
    }
  }

  /** Undo takes back exactly a redemption: the cell is as before, and the log remembers the attempt, marked. */
  lemma UndoTakesBack(s: GrantState, id: string, terms: Terms, now: int)
    requires Coupled(s) && RefuseRedeem(s, id, terms, now).None?
    ensures var undone := Unconsumed(Redeemed(s, id), id); var log := s.log.value;
            && undone.cells == s.cells
            && undone.log == Some(log + [Execution(|log| + 1, terms.request, terms.principal, id, true)])
  {
    var s', log, c := Redeemed(s, id), s.log.value, s.cells[id];
    RedeemKeepsCoupled(s, id);
    assert CellAgrees(log, id, c);
    assert c.execution == None && c.grant.(consumed := true).(consumed := false) == c.grant;
    assert s'.cells[id].execution == Some(|log| + 1);
    MarkedAt(s'.log.value, |log| + 1);
    assert s'.log.value[|log| := s'.log.value[|log|].(rolledBack := true)]
           == log + [Execution(|log| + 1, terms.request, terms.principal, id, true)];
    assert Unconsumed(s', id).cells == s.cells;
  }
}
