/** The re-entry protocol of axiomgate_kernel/mediator.py under threads. Each store guards its own operations with a
    lock, so those are the atomic steps: reading or changing an escalation record, reserving, attaching, redeeming
    or rolling back a grant, and the outcome of an append. Any number of calls interleave in any order. */
module Concurrency {
  import opened Domain

  datatype Status = Pending | Decided | Resolved

  /** One escalation: its record, and the grant reserved for it. */
  datatype Cell = Cell(status: Status, permit: bool, reserved: bool, attached: bool, consumed: bool)

  /** How a call ended. own: the failed append was that of the PERMIT record itself; effective: the rollback found
      the grant consumed. */
  datatype End = Permitted | HashMissing | Refused | Undone(own: bool, effective: bool)

  /** Where a call stands between two atomic steps. */
  datatype Phase =
    | Opening                    // evaluate: record created, grant not yet reserved
    | Attaching(permit: bool)    // decide: decision recorded, grant not yet told
    | Ready                      // reenter: past the status check
    | Refusing                   // about to append a record that is not a PERMIT and names the escalation
    | Redeemed                   // reenter: grant consumed, about to append the PERMIT record
    | Undoing(own: bool)         // the append or the record build failed, rollback to come
    | Granted                    // PERMIT record appended, resolve to come
    | Done(how: End)

  datatype Call = Call(id: string, phase: Phase)

  type Threads = map<nat, Call>

  datatype System = System(cells: map<string, Cell>, threads: Threads)

  const START := System(map[], map[])

  datatype Appended = Stored | WithoutHash | Failed

  datatype Step =
    | Open(t: nat, id: string)                      // evaluate escalates under a fresh id
    | Reserve(t: nat)                               // ... and reserves the grant
    | Decide(t: nat, id: string, permit: bool)      // the Owner's decision reaches the record
    | Attach(t: nat)                                // ... and the grant
    | Enter(t: nat, id: string)                     // reenter reads the record
    | GiveUp(t: nat)                                // policy, capability, provenance or schema refuses
    | Redeem(t: nat, fits: bool)                    // consume_if_valid; fits: not expired and every binding matches
    | Append(t: nat, outcome: Appended)
    | Undo(t: nat)                                  // unconsume
    | Resolve(t: nat)                               // mediator_resolve

  predicate Fresh(s: System, t: nat) {
    t !in s.threads
  }

  predicate At(s: System, t: nat, phase: Phase) {
    t in s.threads && s.threads[t].phase == phase && s.threads[t].id in s.cells
  }

  predicate Busy(s: System, t: nat) {
    t in s.threads && s.threads[t].id in s.cells
  }

  function Moved(s: System, t: nat, phase: Phase): System
    requires t in s.threads
  {
    s.(threads := s.threads[t := Call(s.threads[t].id, phase)])
  }

  function WithCell(s: System, id: string, c: Cell): System {
    s.(cells := s.cells[id := c])
  }

  predicate Redeemable(c: Cell) {
    c.reserved && c.attached && !c.consumed
  }

  /** Where an append outcome takes a call. */
  function AfterAppend(phase: Phase, outcome: Appended): Phase
    requires phase == Refusing || phase == Redeemed
  {
    match outcome
    case Failed => Undoing(phase == Redeemed)
    case Stored => if phase == Redeemed then Granted else Done(Refused)
    case WithoutHash => if phase == Redeemed then Done(HashMissing) else Done(Refused)
  }

  /** One atomic step; a step that is not enabled changes nothing. */
  function Next(s: System, step: Step): System {
    match step
    case Open(t, id) =>
      if !Fresh(s, t) || id in s.cells then s
      else System(s.cells[id := Cell(Pending, false, false, false, false)], s.threads[t := Call(id, Opening)])
    case Reserve(t) =>
      if !At(s, t, Opening) then s
      else
        var id := s.threads[t].id;
        Moved(WithCell(s, id, s.cells[id].(reserved := true, attached := false, consumed := false)), t, Refusing)
    case Decide(t, id, permit) =>
      if !Fresh(s, t) || id !in s.cells || s.cells[id].status != Pending then s
      else System(s.cells[id := s.cells[id].(status := Decided, permit := permit)], s.threads[t := Call(id, Attaching(permit))])
    case Attach(t) =>
      if !Busy(s, t) || !s.threads[t].phase.Attaching? then s
      else
        var id := s.threads[t].id;
        var c := s.cells[id];
        Moved(WithCell(s, id, c.(attached := if c.reserved then s.threads[t].phase.permit else c.attached)), t, Refusing)
    case Enter(t, id) =>
      if !Fresh(s, t) || id !in s.cells then s
      else
        var c := s.cells[id];
        s.(threads := s.threads[t := Call(id, if c.status == Decided && c.permit then Ready else Refusing)])
    case GiveUp(t) => if At(s, t, Ready) then Moved(s, t, Refusing) else s
    case Redeem(t, fits) =>
      if !At(s, t, Ready) then s
      else
        var id := s.threads[t].id;
        if fits && Redeemable(s.cells[id]) then Moved(WithCell(s, id, s.cells[id].(consumed := true)), t, Redeemed)
        else Moved(s, t, Refusing)
    case Append(t, outcome) =>
      if At(s, t, Refusing) || At(s, t, Redeemed) then Moved(s, t, AfterAppend(s.threads[t].phase, outcome)) else s
    case Undo(t) =>
      if !Busy(s, t) || !s.threads[t].phase.Undoing? then s
      else
        var id := s.threads[t].id;
        Moved(WithCell(s, id, s.cells[id].(consumed := false)), t, Done(Undone(s.threads[t].phase.own, s.cells[id].consumed)))
    case Resolve(t) =>
      if !At(s, t, Granted) then s
      else
        var id := s.threads[t].id;
        var c := s.cells[id];
        Moved(WithCell(s, id, c.(status := if c.status == Decided then Resolved else c.status)), t, Done(Permitted))
  }

  /** The system after these steps, in this order: every interleaving is such a sequence. */
  function Run(s: System, steps: seq<Step>): System {
    if steps == [] then s else Next(Run(s, steps[..|steps| - 1]), steps[|steps| - 1])
  }

  // ---------------------------------------------------------------- counting calls

  predicate HasConsumed(p: Phase) {
    p == Redeemed || p == Undoing(true) || p == Granted
    || (p.Done? && (p.how == Permitted || p.how == HashMissing || (p.how.Undone? && p.how.own)))
  }

  /** The call rolled a consumed grant back. */
  predicate HasUndone(p: Phase) {
    p.Done? && p.how.Undone? && p.how.effective
  }

  /** The call returns PERMIT. */
  predicate Permits(p: Phase) {
    p == Granted || p == Done(Permitted)
  }

  /** A call that was refused, decided or escalated, failed to append that, and rolled a consumed grant back. */
  predicate UndidAnothers(p: Phase) {
    p == Done(Undone(false, true))
  }

  ghost function Those(threads: Threads, id: string, kind: Phase -> bool): set<nat> {
    set t | t in threads && threads[t].id == id && kind(threads[t].phase)
  }

  ghost function Count(threads: Threads, id: string, kind: Phase -> bool): nat {
    |Those(threads, id, kind)|
  }

  function One(b: bool): nat {
    if b then 1 else 0
  }

  lemma CountWithout(threads: Threads, t: nat, id: string, kind: Phase -> bool)
    ensures Count(threads, id, kind)
            == Count(threads - {t}, id, kind) + One(t in threads && threads[t].id == id && kind(threads[t].phase))
  {
    var all, rest := Those(threads, id, kind), Those(threads - {t}, id, kind);
    if t in all {
      assert all == rest + {t};
    } else {
      assert all == rest;
    }
  }

  /** Setting one call changes a count by what that call was and what it becomes. */
  lemma CountMove(threads: Threads, t: nat, c: Call, id: string, kind: Phase -> bool)
    ensures Count(threads[t := c], id, kind) + One(t in threads && threads[t].id == id && kind(threads[t].phase))
            == Count(threads, id, kind) + One(c.id == id && kind(c.phase))
  {
    CountWithout(threads, t, id, kind);
    CountWithout(threads[t := c], t, id, kind);
    assert threads[t := c] - {t} == threads - {t};
  }

  // ---------------------------------------------------------------- the ledger of redemptions

  function ConsumedFlag(s: System, id: string): nat {
    if id in s.cells && s.cells[id].consumed then 1 else 0
  }

  /** Redemptions minus effective rollbacks is the consumed flag. */
  ghost predicate Balanced(s: System, id: string) {
    Count(s.threads, id, HasConsumed) == Count(s.threads, id, HasUndone) + ConsumedFlag(s, id)
  }

  /** One call moves, and its cell changes accordingly. */
  lemma BalancedAfterMove(s: System, s': System, t: nat, c: Call, id: string)
    requires Balanced(s, id) && s'.threads == s.threads[t := c]
    requires t in s.threads ==> s.threads[t].id == c.id
    requires var before := t in s.threads && s.threads[t].id == id;
             One(c.id == id && HasConsumed(c.phase)) + One(before && HasUndone(s.threads[t].phase)) + ConsumedFlag(s, id)
             == One(before && HasConsumed(s.threads[t].phase)) + One(c.id == id && HasUndone(c.phase)) + ConsumedFlag(s', id)
    ensures Balanced(s', id)
  {
    CountMove(s.threads, t, c, id, HasConsumed);
    CountMove(s.threads, t, c, id, HasUndone);
  }

  /** An escalation whose grant is not reserved yet has nothing to consume; a call that is reserving found it so. */
  predicate Orderly(s: System) {
    && (forall id | id in s.cells :: s.cells[id].consumed ==> s.cells[id].reserved)
    && (forall t | t in s.threads :: s.threads[t].id in s.cells
          && (s.threads[t].phase == Opening ==> !s.cells[s.threads[t].id].reserved))
    && (forall t, u | t in s.threads && u in s.threads && t != u ::
          s.threads[t].phase == Opening && s.threads[u].phase == Opening ==> s.threads[t].id != s.threads[u].id)
  }

  lemma FilingOrderly(s: System, step: Step)
    requires Orderly(s) && (step.Open? || step.Reserve?)
    ensures Orderly(Next(s, step))
  {
  }

  lemma CellOrderly(s: System, step: Step)
    requires Orderly(s) && (step.Attach? || step.Redeem? || step.Undo? || step.Resolve?)
    ensures Orderly(Next(s, step))
  {
  }

  lemma CallOrderly(s: System, step: Step)
    requires Orderly(s) && (step.Decide? || step.Enter? || step.GiveUp? || step.Append?)
    ensures Orderly(Next(s, step))
  {
  }

  lemma NextOrderly(s: System, step: Step)
    requires Orderly(s)
    ensures Orderly(Next(s, step))
  {
    match step
    case Open(_, _) => FilingOrderly(s, step);
    case Reserve(_) => FilingOrderly(s, step);
    case Decide(_, _, _) => CallOrderly(s, step);
    case Enter(_, _) => CallOrderly(s, step);
    case GiveUp(_) => CallOrderly(s, step);
    case Append(_, _) => CallOrderly(s, step);
    case _ => CellOrderly(s, step);
  }

  lemma RedeemBalanced(s: System, t: nat, fits: bool, id: string)
    requires Balanced(s, id)
    ensures Balanced(Next(s, Redeem(t, fits)), id)
  {
    var s' := Next(s, Redeem(t, fits));
    if s' != s { BalancedAfterMove(s, s', t, s'.threads[t], id); }
  }

  lemma UndoBalanced(s: System, t: nat, id: string)
    requires Balanced(s, id)
    ensures Balanced(Next(s, Undo(t)), id)
  {
    var s' := Next(s, Undo(t));
    if s' != s { BalancedAfterMove(s, s', t, s'.threads[t], id); }
  }

  lemma AppendBalanced(s: System, t: nat, outcome: Appended, id: string)
    requires Balanced(s, id)
    ensures Balanced(Next(s, Append(t, outcome)), id)
  {
    var s' := Next(s, Append(t, outcome));
    if s' != s { BalancedAfterMove(s, s', t, s'.threads[t], id); }
  }

  lemma OtherBalanced(s: System, step: Step, id: string)
    requires Orderly(s) && Balanced(s, id) && !step.Redeem? && !step.Undo? && !step.Append?
    ensures Balanced(Next(s, step), id)
  {
    var s' := Next(s, step);
    if s' != s { BalancedAfterMove(s, s', step.t, s'.threads[step.t], id); }
  }

  lemma NextBalanced(s: System, step: Step, id: string)
    requires Orderly(s) && Balanced(s, id)
    ensures Balanced(Next(s, step), id)
  {
    match step
    case Redeem(t, fits) => RedeemBalanced(s, t, fits, id);
    case Undo(t) => UndoBalanced(s, t, id);
    case Append(t, outcome) => AppendBalanced(s, t, outcome, id);
    case _ => OtherBalanced(s, step, id);
  }

  lemma {:induction false} RunOrderly(steps: seq<Step>)
    ensures Orderly(Run(START, steps))
  {
    if steps != [] {
      RunOrderly(steps[..|steps| - 1]);
      NextOrderly(Run(START, steps[..|steps| - 1]), steps[|steps| - 1]);
    }
  }

  /** In every interleaving, for every escalation: the calls that redeemed its grant, minus the calls that rolled it
      back to unconsumed, are one exactly while the grant is consumed, and none otherwise. */
  lemma {:induction false} RedemptionsBalance(steps: seq<Step>, id: string)
    ensures Balanced(Run(START, steps), id)
  {
    if steps != [] {
      var before := steps[..|steps| - 1];
      RedemptionsBalance(before, id);
      RunOrderly(before);
      NextBalanced(Run(START, before), steps[|steps| - 1], id);
    } else {
      assert Those(START.threads, id, HasConsumed) == {} && Those(START.threads, id, HasUndone) == {};
    }
  }

  // ---------------------------------------------------------------- how many PERMITs

  /** A redemption that has not led to a PERMIT: still on its way, or rolled back by somebody else first, or denied
      for want of a hash. */
  predicate Spent(p: Phase) {
    p == Redeemed || p == Undoing(true) || p == Done(HashMissing) || p == Done(Undone(true, false))
  }

  /** A call that took back its own redemption. */
  predicate UndidOwn(p: Phase) {
    p == Done(Undone(true, true))
  }

  predicate RedeemedInVain(p: Phase) {
    Spent(p) || UndidOwn(p)
  }

  lemma SplitCount(threads: Threads, id: string, whole: Phase -> bool, a: Phase -> bool, b: Phase -> bool)
    requires forall p: Phase :: whole(p) <==> a(p) || b(p)
    requires forall p: Phase :: !(a(p) && b(p))
    ensures Count(threads, id, whole) == Count(threads, id, a) + Count(threads, id, b)
  {
    assert Those(threads, id, whole) == Those(threads, id, a) + Those(threads, id, b);
    assert Those(threads, id, a) !! Those(threads, id, b);
  }

  /** In every interleaving, exactly: PERMITs and redemptions spent without one together number the consumed flag plus
      the calls that rolled back a redemption not their own. */
  lemma PermitsCounted(steps: seq<Step>, id: string)
    ensures var s := Run(START, steps);
            Count(s.threads, id, Permits) + Count(s.threads, id, Spent)
            == ConsumedFlag(s, id) + Count(s.threads, id, UndidAnothers)
  {
    var threads := Run(START, steps).threads;
    RedemptionsBalance(steps, id);
    SplitCount(threads, id, HasConsumed, Permits, RedeemedInVain);
    SplitCount(threads, id, RedeemedInVain, Spent, UndidOwn);
    SplitCount(threads, id, HasUndone, UndidOwn, UndidAnothers);
  }

  /** One escalation never yields more than one PERMIT beyond its stray rollbacks. */
  lemma PermitsBounded(steps: seq<Step>, id: string)
    ensures var threads := Run(START, steps).threads;
            Count(threads, id, Permits) <= 1 + Count(threads, id, UndidAnothers)
  {
    PermitsCounted(steps, id);
  }

  /** At step i a call that has redeemed nothing fails to record its answer: a refusal, a decision or an escalation. */
  predicate FailsElsewhere(steps: seq<Step>, i: nat)
    requires i < |steps|
  {
    steps[i].Append? && steps[i].outcome == Failed && At(Run(START, steps[..i]), steps[i].t, Refusing)
  }

  /** Only calls of this set may fail to record something other than their own PERMIT. */
  predicate OnlyTheseFail(steps: seq<Step>, may: set<nat>) {
    forall i | 0 <= i < |steps| && FailsElsewhere(steps, i) :: steps[i].t in may
  }

  predicate NobodyStrays(s: System) {
    forall t | t in s.threads :: s.threads[t].phase != Undoing(false) && !UndidAnothers(s.threads[t].phase)
  }

  lemma StrayNeedsFailure(s: System, step: Step)
    requires NobodyStrays(s) && !(step.Append? && step.outcome == Failed && At(s, step.t, Refusing))
    ensures NobodyStrays(Next(s, step))
  {
  }

  lemma OnlyTheseFailPrefix(steps: seq<Step>, may: set<nat>, n: nat)
    requires OnlyTheseFail(steps, may) && n <= |steps|
    ensures OnlyTheseFail(steps[..n], may)
  {
    forall i | 0 <= i < n && FailsElsewhere(steps[..n], i) ensures steps[i].t in may {
      assert steps[..n][..i] == steps[..i];
      assert FailsElsewhere(steps, i);
    }
  }

  lemma {:induction false} NobodyStraysWithoutFailure(steps: seq<Step>)
    requires OnlyTheseFail(steps, {})
    ensures NobodyStrays(Run(START, steps))
  {
    if steps != [] {
      var n := |steps| - 1;
      OnlyTheseFailPrefix(steps, {}, n);
      NobodyStraysWithoutFailure(steps[..n]);
      assert !FailsElsewhere(steps, n);
      StrayNeedsFailure(Run(START, steps[..n]), steps[n]);
    }
  }

  /** When no call fails to record something other than its own PERMIT, at most one call per escalation returns PERMIT,
      however the calls interleave. A call that fails to record its own PERMIT only takes back its own redemption. */
  lemma AtMostOnePermit(steps: seq<Step>, id: string)
    requires OnlyTheseFail(steps, {})
    ensures Count(Run(START, steps).threads, id, Permits) <= 1
  {
    var threads := Run(START, steps).threads;
    PermitsBounded(steps, id);
    NobodyStraysWithoutFailure(steps);
    assert Those(threads, id, UndidAnothers) == {};
  }

  // ---------------------------------------------------------------- every PERMIT rests on the Owner's decision

  /** What each call knows about its escalation, and what a grant shows. */
  predicate Grounded(s: System, t: nat)
    requires t in s.threads
  {
    var id := s.threads[t].id;
    id in s.cells &&
    match s.threads[t].phase
    case Attaching(permit) => s.cells[id].status != Pending && s.cells[id].permit == permit
    case Ready => s.cells[id].status != Pending && s.cells[id].permit
    case p => HasConsumed(p) ==> s.cells[id].status != Pending && s.cells[id].permit
  }

  predicate OwnerFirst(s: System) {
    && (forall t | t in s.threads :: Grounded(s, t))
    && AttachedAfterDecision(s.cells)
  }

  /** Decisions stand from a to b. */
  predicate DecisionsStand(a: map<string, Cell>, b: map<string, Cell>) {
    forall id | id in a :: id in b && (a[id].status != Pending ==> b[id].status != Pending && b[id].permit == a[id].permit)
  }

  predicate AttachedAfterDecision(cells: map<string, Cell>) {
    forall id | id in cells && cells[id].attached :: cells[id].status != Pending && cells[id].permit
  }

  /** One call moves, decisions stand. */
  lemma OwnerFirstAfterMove(s: System, s': System, t: nat)
    requires OwnerFirst(s) && t in s'.threads && s'.threads == s.threads[t := s'.threads[t]]
    requires DecisionsStand(s.cells, s'.cells) && AttachedAfterDecision(s'.cells) && Grounded(s', t)
    ensures OwnerFirst(s')
  {
    forall u | u in s'.threads ensures Grounded(s', u) {
      if u != t { assert Grounded(s, u); }
    }
  }

  lemma FilingOwnerFirst(s: System, step: Step)
    requires OwnerFirst(s) && (step.Open? || step.Reserve?)
    ensures OwnerFirst(Next(s, step))
  {
    var s' := Next(s, step);
    if s' != s {
      assert step.Reserve? ==> Grounded(s, step.t);
      OwnerFirstAfterMove(s, s', step.t);
    }
  }

  lemma DecidingOwnerFirst(s: System, step: Step)
    requires OwnerFirst(s) && (step.Decide? || step.Attach?)
    ensures OwnerFirst(Next(s, step))
  {
    var s' := Next(s, step);
    if s' != s {
      assert step.Attach? ==> Grounded(s, step.t);
      OwnerFirstAfterMove(s, s', step.t);
    }
  }

  lemma RedeemingOwnerFirst(s: System, step: Step)
    requires OwnerFirst(s) && (step.Redeem? || step.Undo? || step.Resolve?)
    ensures OwnerFirst(Next(s, step))
  {
    var s' := Next(s, step);
    if s' != s {
      assert Grounded(s, step.t);
      OwnerFirstAfterMove(s, s', step.t);
    }
  }

  lemma MovingOwnerFirst(s: System, step: Step)
    requires OwnerFirst(s) && (step.Enter? || step.GiveUp? || step.Append?)
    ensures OwnerFirst(Next(s, step))
  {
    var s' := Next(s, step);
    if s' != s {
      assert !step.Enter? ==> Grounded(s, step.t);
      OwnerFirstAfterMove(s, s', step.t);
    }
  }

  lemma NextOwnerFirst(s: System, step: Step)
    requires OwnerFirst(s)
    ensures OwnerFirst(Next(s, step))
  {
    match step
    case Open(_, _) => FilingOwnerFirst(s, step);
    case Reserve(_) => FilingOwnerFirst(s, step);
    case Decide(_, _, _) => DecidingOwnerFirst(s, step);
    case Attach(_) => DecidingOwnerFirst(s, step);
    case Redeem(_, _) => RedeemingOwnerFirst(s, step);
    case Undo(_) => RedeemingOwnerFirst(s, step);
    case Resolve(_) => RedeemingOwnerFirst(s, step);
    case _ => MovingOwnerFirst(s, step);
  }

  /** A grant that a call has redeemed is reserved, and carries the Owner's permit. */
  predicate TellsOfPermit(s: System, t: nat)
    requires t in s.threads
  {
    HasConsumed(s.threads[t].phase) ==>
      s.threads[t].id in s.cells && s.cells[s.threads[t].id].reserved && s.cells[s.threads[t].id].attached
  }

  predicate AllTellOfPermit(s: System) {
    forall t | t in s.threads :: TellsOfPermit(s, t)
  }

  lemma NextTellsOfPermit(s: System, step: Step, t: nat)
    requires Orderly(s) && OwnerFirst(s) && AllTellOfPermit(s) && t in Next(s, step).threads
    ensures TellsOfPermit(Next(s, step), t)
  {
    if t in s.threads {
      assert TellsOfPermit(s, t) && Grounded(s, t);
      if step.Attach? && step.t in s.threads { assert Grounded(s, step.t); }
    }
  }

  lemma {:induction false} RunTellsOfPermit(steps: seq<Step>)
    ensures AllTellOfPermit(Run(START, steps))
  {
    if steps != [] {
      var n := |steps| - 1;
      RunTellsOfPermit(steps[..n]);
      RunOrderly(steps[..n]);
      RunOwnerFirst(steps[..n]);
      forall t | t in Run(START, steps).threads ensures TellsOfPermit(Run(START, steps), t) {
        NextTellsOfPermit(Run(START, steps[..n]), steps[n], t);
      }
    }
  }

  /** In every interleaving a call that redeemed a grant did so on an escalation the Owner had decided to permit, under a
      reserved grant that carries this permit; and all of that stands. */
  lemma RedemptionFollowsTheOwner(steps: seq<Step>, t: nat)
    requires var s := Run(START, steps); t in s.threads && HasConsumed(s.threads[t].phase)
    ensures var s := Run(START, steps); var id := s.threads[t].id;
            id in s.cells && s.cells[id].permit && s.cells[id].status != Pending && s.cells[id].reserved && s.cells[id].attached
  {
    RunOwnerFirst(steps);
    RunTellsOfPermit(steps);
    assert Grounded(Run(START, steps), t) && TellsOfPermit(Run(START, steps), t);
  }

  lemma {:induction false} RunOwnerFirst(steps: seq<Step>)
    ensures OwnerFirst(Run(START, steps))
  {
    if steps != [] {
      RunOwnerFirst(steps[..|steps| - 1]);
      NextOwnerFirst(Run(START, steps[..|steps| - 1]), steps[|steps| - 1]);
    }
  }

  // ---------------------------------------------------------------- after the resolution

  /** How far a call that started too late can get: its refusal, and the rollback if that cannot be recorded. */
  predicate TooLate(p: Phase) {
    p == Refusing || p == Undoing(false) || p == Done(Refused) || (p.Done? && p.how.Undone? && !p.how.own)
  }

  /** The escalation is resolved, and this call, if it has started at all, is about it and too late. */
  predicate Shut(s: System, id: string, t: nat) {
    && id in s.cells && s.cells[id].status == Resolved
    && (t in s.threads && s.threads[t].id == id ==> TooLate(s.threads[t].phase))
  }

  lemma StaysShut(s: System, step: Step, id: string, t: nat)
    requires Shut(s, id, t)
    ensures Shut(Next(s, step), id, t)
  {
  }

  /** A call on an escalation that starts after its resolution never redeems anything and is never permitted, in any
      interleaving, whatever fails. */
  lemma {:induction false} NoPermitAfterResolution(before: seq<Step>, after: seq<Step>, id: string, t: nat)
    requires var s := Run(START, before); id in s.cells && s.cells[id].status == Resolved && t !in s.threads
    ensures var s := Run(START, before + after);
            && id in s.cells && s.cells[id].status == Resolved
            && (t in s.threads && s.threads[t].id == id ==> TooLate(s.threads[t].phase))
    decreases |after|
  {
    if after == [] {
      assert before + [] == before;
    } else {
      var n := |after| - 1;
      NoPermitAfterResolution(before, after[..n], id, t);
      assert (before + after)[..|before + after| - 1] == before + after[..n];
      StaysShut(Run(START, before + after[..n]), after[n], id, t);
    }
  }

  // ---------------------------------------------------------------- the bound is reached

  lemma OneMore(steps: seq<Step>, step: Step) returns (more: seq<Step>)
    ensures more == steps + [step] && Run(START, more) == Next(Run(START, steps), step)
  {
    more := steps + [step];
    assert more[..|more| - 1] == steps;
  }

  /** The grant is consumed, nobody has resolved the escalation yet, and call numbers from t on are unused. */
  predicate StillOpen(s: System, id: string, t: nat) {
    TakenUnresolved(s, id) && forall u | u in s.threads :: u < t
  }

  predicate TakenUnresolved(s: System, id: string) {
    id in s.cells && s.cells[id] == Cell(Decided, true, true, true, true)
  }

  /** A refused re-entry whose append fails rolls back somebody else's redemption. */
  lemma StrayUndo(steps: seq<Step>, id: string, t: nat) returns (more: seq<Step>)
    requires TakenUnresolved(Run(START, steps), id) && Fresh(Run(START, steps), t)
    ensures var s, s' := Run(START, steps), Run(START, more);
            && s'.cells == s.cells[id := s.cells[id].(consumed := false)]
            && s'.threads == s.threads[t := Call(id, Done(Undone(false, true)))]
    ensures more == steps + [Enter(t, id), GiveUp(t), Append(t, Failed), Undo(t)]
  {
    more := OneMore(steps, Enter(t, id));
    more := OneMore(more, GiveUp(t));
    more := OneMore(more, Append(t, Failed));
    more := OneMore(more, Undo(t));
  }

  /** A re-entry that finds the grant unconsumed redeems it and gets its PERMIT recorded. */
  lemma FreshPermit(steps: seq<Step>, id: string, t: nat) returns (more: seq<Step>)
    requires var s := Run(START, steps);
             && id in s.cells && s.cells[id] == Cell(Decided, true, true, true, false) && Fresh(s, t)
    ensures var s, s' := Run(START, steps), Run(START, more);
            && s'.cells == s.cells[id := s.cells[id].(consumed := true)]
            && s'.threads == s.threads[t := Call(id, Granted)]
    ensures more == steps + [Enter(t, id), Redeem(t, true), Append(t, Stored)]
  {
    more := OneMore(steps, Enter(t, id));
    more := OneMore(more, Redeem(t, true));
    more := OneMore(more, Append(t, Stored));
  }

  predicate NoFailures(steps: seq<Step>) {
    forall i | 0 <= i < |steps| :: !(steps[i].Append? && steps[i].outcome == Failed)
  }

  const NOBODY: Threads := map[]

  lemma Escalated(id: string, u: nat) returns (steps: seq<Step>)
    ensures Run(START, steps) == System(map[id := Cell(Pending, false, true, false, false)], NOBODY[u := Call(id, Done(Refused))])
    ensures NoFailures(steps)
  {
    steps := OneMore([], Open(u, id));
    assert Run(START, steps) == System(map[id := Cell(Pending, false, false, false, false)], NOBODY[u := Call(id, Opening)]);
    steps := OneMore(steps, Reserve(u));
    assert Run(START, steps) == System(map[id := Cell(Pending, false, true, false, false)], NOBODY[u := Call(id, Refusing)]);
    steps := OneMore(steps, Append(u, Stored));
  }

  lemma OwnerPermits(id: string, u: nat, before: seq<Step>) returns (steps: seq<Step>)
    requires Run(START, before)
             == System(map[id := Cell(Pending, false, true, false, false)], NOBODY[u := Call(id, Done(Refused))])
    requires NoFailures(before)
    ensures var done := Call(id, Done(Refused));
            Run(START, steps) == System(map[id := Cell(Decided, true, true, true, false)], NOBODY[u := done][u + 1 := done])
    ensures NoFailures(steps)
  {
    steps := OwnerDecides(id, u, before);
    steps := OneMore(steps, Append(u + 1, Stored));
  }

  lemma OwnerDecides(id: string, u: nat, before: seq<Step>) returns (steps: seq<Step>)
    requires Run(START, before)
             == System(map[id := Cell(Pending, false, true, false, false)], NOBODY[u := Call(id, Done(Refused))])
    requires NoFailures(before)
    ensures Run(START, steps) == System(map[id := Cell(Decided, true, true, true, false)],
                                        NOBODY[u := Call(id, Done(Refused))][u + 1 := Call(id, Refusing)])
    ensures NoFailures(steps)
  {
    steps := OneMore(before, Decide(u + 1, id, true));
    assert Run(START, steps) == System(map[id := Cell(Decided, true, true, false, false)],
                                       NOBODY[u := Call(id, Done(Refused))][u + 1 := Call(id, Attaching(true))]);
    steps := OneMore(steps, Attach(u + 1));
  }

  /** An escalation of calls u, u + 1 and u + 2 ends in one PERMIT, nothing having failed. */
  lemma FirstPermit(id: string, u: nat) returns (steps: seq<Step>)
    ensures var s := Run(START, steps);
            && StillOpen(s, id, u + 3) && s.threads.Keys == {u, u + 1, u + 2}
            && Count(s.threads, id, Permits) == 1 && Count(s.threads, id, UndidAnothers) == 0
    ensures NoFailures(steps)
  {
    steps := Escalated(id, u);
    steps := OwnerPermits(id, u, steps);
    steps := FreshPermit(steps, id, u + 2);
    var threads := Run(START, steps).threads;
    assert Those(threads, id, Permits) == {u + 2};
    assert Those(threads, id, UndidAnothers) == {};
  }

  /** The bound is exact: for every n there is an interleaving with n stray rollbacks and n + 1 calls that return
      PERMIT on one escalation -- with one failed append, two. */
  lemma {:induction false} BoundIsReached(id: string, n: nat) returns (steps: seq<Step>, t: nat)
    ensures var s := Run(START, steps);
            && StillOpen(s, id, t)
            && Count(s.threads, id, Permits) == n + 1 && Count(s.threads, id, UndidAnothers) == n
  {
    if n == 0 {
      steps := FirstPermit(id, 0);
      t := 3;
    } else {
      var before, u := BoundIsReached(id, n - 1);
      steps := RoundMore(before, id, u);
      t := u + 2;
    }
  }

  /** One stray rollback and one more PERMIT. */
  lemma RoundMore(before: seq<Step>, id: string, u: nat) returns (steps: seq<Step>)
    requires StillOpen(Run(START, before), id, u)
    ensures var s, s' := Run(START, before), Run(START, steps);
            && StillOpen(s', id, u + 2)
            && Count(s'.threads, id, Permits) == Count(s.threads, id, Permits) + 1
            && Count(s'.threads, id, UndidAnothers) == Count(s.threads, id, UndidAnothers) + 1
  {
    var middle := StrayUndo(before, id, u);
    steps := FreshPermit(middle, id, u + 1);
    CountStrayAndPermit(Run(START, before).threads, u, u + 1, id);
  }

  // ---------------------------------------------------------------- which failures matter

  /** If call f may fail to record a refusal, two calls can get PERMIT on one escalation. */
  lemma OneStrayTwoPermits(id: string, f: nat) returns (steps: seq<Step>)
    ensures OnlyTheseFail(steps, {f}) && Count(Run(START, steps).threads, id, Permits) == 2
  {
    var before := FirstPermit(id, f + 1);
    var middle := StrayUndo(before, id, f);
    steps := FreshPermit(middle, id, f + 4);
    CountStrayAndPermit(Run(START, before).threads, f, f + 4, id);
    OnlyTheStrayFails(before, id, f, f + 4);
  }

  lemma OnlyTheStrayFails(before: seq<Step>, id: string, f: nat, u: nat)
    requires NoFailures(before)
    ensures OnlyTheseFail(before + [Enter(f, id), GiveUp(f), Append(f, Failed), Undo(f)]
                          + [Enter(u, id), Redeem(u, true), Append(u, Stored)], {f})
  {
    var steps := before + [Enter(f, id), GiveUp(f), Append(f, Failed), Undo(f)]
                 + [Enter(u, id), Redeem(u, true), Append(u, Stored)];
    assert forall i | 0 <= i < |before| :: steps[i] == before[i];
  }

  lemma CountStrayAndPermit(threads: Threads, t: nat, u: nat, id: string)
    requires t !in threads && u !in threads && t != u
    ensures var after := threads[t := Call(id, Done(Undone(false, true)))][u := Call(id, Granted)];
            && Count(after, id, Permits) == Count(threads, id, Permits) + 1
            && Count(after, id, UndidAnothers) == Count(threads, id, UndidAnothers) + 1
  {
    var stray, permit := Call(id, Done(Undone(false, true))), Call(id, Granted);
    CountMove(threads, t, stray, id, Permits);
    CountMove(threads, t, stray, id, UndidAnothers);
    CountMove(threads[t := stray], u, permit, id, Permits);
    CountMove(threads[t := stray], u, permit, id, UndidAnothers);
  }

  /** Every interleaving in which only these calls may fail to record something other than their own PERMIT gives each
      escalation at most one. */
  ghost predicate AlwaysAtMostOne(may: set<nat>) {
    forall steps, id | OnlyTheseFail(steps, may) :: Count(Run(START, steps).threads, id, Permits) <= 1
  }

  /** Exactly which failures matter: at most one PERMIT per escalation is guaranteed if and only if no call at all may
      fail to record a refusal, a decision or an escalation. Failing to record a PERMIT is harmless. */
  lemma AtMostOneExactlyWhenNoStray(may: set<nat>)
    ensures AlwaysAtMostOne(may) <==> may == {}
  {
    if may == {} {
      forall steps, id | OnlyTheseFail(steps, may) ensures Count(Run(START, steps).threads, id, Permits) <= 1 {
        AtMostOnePermit(steps, id);
      }
    } else {
      var f :| f in may;
      var steps := OneStrayTwoPermits("esc", f);
      assert OnlyTheseFail(steps, may);
    }
  }
}
