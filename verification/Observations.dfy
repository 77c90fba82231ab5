/** The observation log and the two checkers that relate it to the other logs: axiomgate_kernel/observation.py and
    check_execution_invariant of axiomgate_kernel/execution.py. */
module Observations {
  import opened Domain
  import opened JsonValues
  import opened ExecutionLogs

  /** The request id is stored as the request carried it. */
  datatype Observation = Observation(number: nat, principal: string, requestId: Json, payload: string)

  datatype Status = Holds | Partial | Violated | Unobservable

  predicate InOrder(log: seq<Observation>) {
    forall i | 0 <= i < |log| :: log[i].number == i + 1
  }

  /** record appends first and indexes by request id second: an id that cannot be a dictionary key makes it raise,
      with the record already in the log. */
  function Observe(log: seq<Observation>, principal: string, requestId: Json, payload: string): (r: (seq<Observation>, Option<nat>))
    ensures InOrder(log) ==> InOrder(r.0)
  {
    (log + [Observation(|log| + 1, principal, requestId, payload)],
     if requestId.Hashable() then Some(|log| + 1) else None)
  }

  class ObservationLog {
    var records: seq<Observation>

    constructor ()
      ensures records == []
    {
      records := [];
    }

    /** The number of the new record, or None where the source raises. */
    method Record(principal: string, requestId: Json, payload: string) returns (number: Option<nat>)
      modifies this
      ensures (records, number) == Observe(old(records), principal, requestId, payload)
    {
      var record := Observation(|records| + 1, principal, requestId, payload);
      records := records + [record];
      if requestId != JNull && !requestId.Hashable() { return None; }
      return Some(record.number);
    }
  }

  // ---------------------------------------------------------------- I1, I4, I6

  /** The whole number a JSON value equals, as a dictionary lookup sees it. */
  function WholeNumber(v: Json): (n: Option<int>)
    ensures n.Some? ==> v.EqualsInt(n.value)
    ensures n.None? ==> forall k :: !v.EqualsInt(k)
  {
    match v
    case JBool(b) => Some(if b then 1 else 0)
    case JInt(n) => Some(n)
    case JFloat(negative, mantissa, exponent) => WholeFloat(negative, mantissa, exponent)
    case _ => None
  }

  /** What an audit entry says about its observation. */
  datatype Citation = Uncited | Dangling | Cites(number: nat) | Unjudgeable

  function Cited(log: seq<Observation>, entry: Fields): (c: Citation)
    ensures c.Cites? ==> 1 <= c.number <= |log|
  {
    var v := Get(entry, "observation_seq");
    var n := WholeNumber(v);
    if v == JNull then Uncited
    else if !v.Hashable() then Unjudgeable
    else if n.Some? && 1 <= n.value <= |log| then Cites(n.value)
    else Dangling
  }

  datatype Report = Report(i1: Status, i4: Status, i6: Status, observed: nat, unobserved: nat)
  {
    predicate AllHold() {
      i1 == Holds && i4 == Holds && i6 == Holds
    }
  }

  predicate AnyIs(log: seq<Observation>, entries: seq<Fields>, c: Citation) {
    exists i :: 0 <= i < |entries| && Cited(log, entries[i]) == c
  }

  predicate SomeCites(log: seq<Observation>, entries: seq<Fields>) {
    exists i :: 0 <= i < |entries| && Cited(log, entries[i]).Cites?
  }

  /** The cited numbers increase strictly along the chain, whatever lies between two citing entries. */
  predicate Increasing(log: seq<Observation>, entries: seq<Fields>) {
    forall i, j | 0 <= i < j < |entries| ::
      Cited(log, entries[i]).Cites? && Cited(log, entries[j]).Cites? ==>
        Cited(log, entries[i]).number < Cited(log, entries[j]).number
  }

  predicate SamePrincipal(log: seq<Observation>, entry: Fields) {
    Cited(log, entry).Cites? ==> Get(entry, "bound_principal") == JStr(log[Cited(log, entry).number - 1].principal)
  }

  function FirstStatus(log: seq<Observation>, entries: seq<Fields>): Status {
    if AnyIs(log, entries, Dangling) then Violated
    else if entries == [] then Unobservable
    else if !SomeCites(log, entries) then Violated
    else if AnyIs(log, entries, Uncited) then Partial
    else Holds
  }

  /** I4 and I6 repeat the verdict of I1 when there is nothing to compare. */
  function PairStatus(log: seq<Observation>, entries: seq<Fields>, ok: bool): Status {
    if !SomeCites(log, entries) then FirstStatus(log, entries)
    else if ok then Holds else Violated
  }

  predicate AllSamePrincipal(log: seq<Observation>, entries: seq<Fields>) {
    forall i | 0 <= i < |entries| :: SamePrincipal(log, entries[i])
  }

  /** The entries that cite, with the numbers they cite: what the checker's list `observed` holds. */
  function Citing(log: seq<Observation>, entries: seq<Fields>): seq<(Fields, nat)> {
    if entries == [] then []
    else
      var before, last := Citing(log, entries[..|entries| - 1]), entries[|entries| - 1];
      if Cited(log, last).Cites? then before + [(last, Cited(log, last).number)] else before
  }

  function Count(log: seq<Observation>, entries: seq<Fields>, c: Citation): nat {
    if entries == [] then 0
    else Count(log, entries[..|entries| - 1], c) + if Cited(log, entries[|entries| - 1]) == c then 1 else 0
  }

  lemma {:induction false} CountNone(log: seq<Observation>, entries: seq<Fields>, c: Citation)
    ensures Count(log, entries, c) == 0 <==> !AnyIs(log, entries, c)
  {
    if entries != [] {
      var n := |entries| - 1;
      CountNone(log, entries[..n], c);
      if AnyIs(log, entries[..n], c) {
        var i :| 0 <= i < n && Cited(log, entries[..n][i]) == c;
        assert Cited(log, entries[i]) == c;
      }
      if AnyIs(log, entries, c) && Cited(log, entries[n]) != c {
        var i :| 0 <= i < |entries| && Cited(log, entries[i]) == c;
        assert Cited(log, entries[..n][i]) == c;
      }
    }
  }

  lemma {:induction false} CitingMembers(log: seq<Observation>, entries: seq<Fields>)
    ensures Citing(log, entries) == [] <==> !SomeCites(log, entries)
    ensures forall p | p in Citing(log, entries) :: p.0 in entries && Cited(log, p.0) == Cites(p.1)
    ensures forall e | e in entries && Cited(log, e).Cites? :: (e, Cited(log, e).number) in Citing(log, entries)
  {
    if entries != [] {
      var n := |entries| - 1;
      CitingMembers(log, entries[..n]);
      assert entries == entries[..n] + [entries[n]];
      if SomeCites(log, entries[..n]) {
        var i :| 0 <= i < n && Cited(log, entries[..n][i]).Cites?;
        assert Cited(log, entries[i]).Cites?;
      }
      if SomeCites(log, entries) && !Cited(log, entries[n]).Cites? {
        var i :| 0 <= i < |entries| && Cited(log, entries[i]).Cites?;
        assert Cited(log, entries[..n][i]).Cites?;
      }
    }
  }

  /** Neighbours in a list of citing entries increase. */
  predicate Ascending(pairs: seq<(Fields, nat)>) {
    forall i | 0 < i < |pairs| :: pairs[i - 1].1 < pairs[i].1
  }

  lemma {:induction false} AscendingBelowLast(pairs: seq<(Fields, nat)>, i: nat)
    requires Ascending(pairs) && i < |pairs|
    ensures pairs[i].1 <= pairs[|pairs| - 1].1
    decreases |pairs| - i
  {
    if i + 1 < |pairs| {
      AscendingBelowLast(pairs, i + 1);
    }
  }

  lemma IncreasingSnoc(log: seq<Observation>, entries: seq<Fields>, last: Fields)
    ensures Increasing(log, entries + [last]) <==>
            Increasing(log, entries) &&
            (Cited(log, last).Cites? ==>
               forall e | e in entries && Cited(log, e).Cites? :: Cited(log, e).number < Cited(log, last).number)
  {
    var all, n := entries + [last], |entries|;
    assert forall i | 0 <= i < n :: all[i] == entries[i];
    if Increasing(log, all) {
      forall i, j | 0 <= i < j < n && Cited(log, entries[i]).Cites? && Cited(log, entries[j]).Cites?
        ensures Cited(log, entries[i]).number < Cited(log, entries[j]).number
      {
        assert all[i] == entries[i] && all[j] == entries[j];
      }
      forall e | e in entries && Cited(log, e).Cites? && Cited(log, last).Cites?
        ensures Cited(log, e).number < Cited(log, last).number
      {
        var i :| 0 <= i < n && entries[i] == e;
        assert all[i] == e && all[n] == last;
      }
    }
  }

  /** Comparing neighbours is enough: strict order among all citing entries. */
  lemma {:induction false} AscendingIsIncreasing(log: seq<Observation>, entries: seq<Fields>)
    ensures Ascending(Citing(log, entries)) <==> Increasing(log, entries)
  {
    if entries != [] {
      var n := |entries| - 1;
      var before, last := entries[..n], entries[n];
      AscendingIsIncreasing(log, before);
      CitingMembers(log, before);
      assert entries == before + [last];
      IncreasingSnoc(log, before, last);
      if Cited(log, last).Cites? {
        AscendingSnoc(Citing(log, before), (last, Cited(log, last).number));
      }
    }
  }

  lemma AscendingSnoc(pairs: seq<(Fields, nat)>, p: (Fields, nat))
    ensures Ascending(pairs + [p]) <==> Ascending(pairs) && forall q | q in pairs :: q.1 < p.1
  {
    var all := pairs + [p];
    if Ascending(all) {
      forall q | q in pairs ensures q.1 < p.1 {
        var i :| 0 <= i < |pairs| && pairs[i] == q;
        AscendingBelowLast(all, i + 1);
        assert all[i].1 < all[i + 1].1;
      }
      forall i | 0 < i < |pairs| ensures pairs[i - 1].1 < pairs[i].1 {
        assert all[i - 1] == pairs[i - 1] && all[i] == pairs[i];
      }
    }
  }

  /** check_invariants on the two logs; None where the source raises. */
  function InvariantReport(log: Option<seq<Observation>>, entries: seq<Fields>): Option<Report> {
    if log.None? then Some(Report(Unobservable, Unobservable, Unobservable, 0, 0))
    else if AnyIs(log.value, entries, Unjudgeable) then None
    else Some(Report(FirstStatus(log.value, entries),
                     PairStatus(log.value, entries, Increasing(log.value, entries)),
                     PairStatus(log.value, entries, AllSamePrincipal(log.value, entries)),
                     |Citing(log.value, entries)|, Count(log.value, entries, Uncited)))
  }

  /** The three lists of check_invariants, the second and third by their length; None where the loop raises. */
  method SortOut(log: seq<Observation>, entries: seq<Fields>) returns (r: Option<(seq<(Fields, nat)>, nat, nat)>)
    ensures r.None? <==> AnyIs(log, entries, Unjudgeable)
    ensures r.Some? ==> r.value == (Citing(log, entries), Count(log, entries, Uncited), Count(log, entries, Dangling))
  {
    var observed: seq<(Fields, nat)>, unobserved, dangling := [], 0, 0;
    for i := 0 to |entries|
      invariant !AnyIs(log, entries[..i], Unjudgeable)
      invariant observed == Citing(log, entries[..i])
      invariant unobserved == Count(log, entries[..i], Uncited) && dangling == Count(log, entries[..i], Dangling)
    {
      assert entries[..i + 1][..i] == entries[..i];
      NoneYet(log, entries, i);
      match Cited(log, entries[i]) {
        case Unjudgeable => return None;
        case Uncited => unobserved := unobserved + 1;
        case Dangling => dangling := dangling + 1;
        case Cites(number) => observed := observed + [(entries[i], number)];
      }
    }
    assert entries[..|entries|] == entries;
    return Some((observed, unobserved, dangling));
  }

  method FirstVerdict(log: seq<Observation>, entries: seq<Fields>, observed: seq<(Fields, nat)>, unobserved: nat, dangling: nat)
    returns (i1: Status)
    requires observed == Citing(log, entries)
    requires unobserved == Count(log, entries, Uncited) && dangling == Count(log, entries, Dangling)
    ensures i1 == FirstStatus(log, entries) && (observed == [] <==> !SomeCites(log, entries))
    ensures i1 == Partial ==> observed != []
  {
    CountNone(log, entries, Dangling);
    CountNone(log, entries, Uncited);
    CitingMembers(log, entries);
    if dangling > 0 { return Violated; }
    if entries == [] { return Unobservable; }
    if observed == [] { return Violated; }
    if unobserved > 0 { return Partial; }
    return Holds;
  }

  method CheckInvariants(observations: ObservationLog?, entries: seq<Fields>) returns (report: Option<Report>)
    requires observations != null ==> InOrder(observations.records)
    ensures report == InvariantReport(if observations == null then None else Some(observations.records), entries)
  {
    if observations == null { return Some(Report(Unobservable, Unobservable, Unobservable, 0, 0)); }
    var log := observations.records;
    var lists := SortOut(log, entries);
    if lists.None? { return None; }
    var (observed, unobserved, dangling) := lists.value;
    var i1 := FirstVerdict(log, entries, observed, unobserved, dangling);
    SameByPairs(log, entries);
    AscendingIsIncreasing(log, entries);
    var outOfOrder := CountOutOfOrder(observed);
    var mismatched := CountMismatched(log, observed);
    var nothing := if i1 != Partial then i1 else Violated;
    var i4 := if observed == [] then nothing else if outOfOrder > 0 then Violated else Holds;
    var i6 := if observed == [] then nothing else if mismatched > 0 then Violated else Holds;
    return Some(Report(i1, i4, i6, |observed|, unobserved));
  }

  lemma NoneYet(log: seq<Observation>, entries: seq<Fields>, i: nat)
    requires i < |entries| && !AnyIs(log, entries[..i], Unjudgeable)
    ensures AnyIs(log, entries[..i + 1], Unjudgeable) <==> Cited(log, entries[i]) == Unjudgeable
    ensures Cited(log, entries[i]) == Unjudgeable ==> AnyIs(log, entries, Unjudgeable)
  {
    assert entries[..i + 1][i] == entries[i];
    assert forall k | 0 <= k < i :: entries[..i + 1][k] == entries[..i][k];
  }

  method CountOutOfOrder(pairs: seq<(Fields, nat)>) returns (n: nat)
    ensures n == 0 <==> Ascending(pairs)
  {
    n := 0;
    var i := 1;
    while i < |pairs|
      invariant 1 <= i
      invariant n == 0 <==> forall k | 0 < k < i && k < |pairs| :: pairs[k - 1].1 < pairs[k].1
    {
      if pairs[i].1 <= pairs[i - 1].1 { n := n + 1; }
      i := i + 1;
    }
  }

  predicate PairMatches(log: seq<Observation>, p: (Fields, nat)) {
    1 <= p.1 <= |log| ==> Get(p.0, "bound_principal") == JStr(log[p.1 - 1].principal)
  }

  method CountMismatched(log: seq<Observation>, pairs: seq<(Fields, nat)>) returns (n: nat)
    requires forall i | 0 <= i < |pairs| :: 1 <= pairs[i].1 <= |log|
    ensures n == 0 <==> forall p | p in pairs :: PairMatches(log, p)
  {
    n := 0;
    for i := 0 to |pairs|
      invariant n == 0 <==> forall k | 0 <= k < i :: PairMatches(log, pairs[k])
    {
      if Get(pairs[i].0, "bound_principal") != JStr(log[pairs[i].1 - 1].principal) { n := n + 1; }
    }
  }

  lemma OnePairMatches(log: seq<Observation>, e: Fields)
    requires Cited(log, e).Cites?
    ensures SamePrincipal(log, e) == PairMatches(log, (e, Cited(log, e).number))
  {
  }

  lemma SameByPairs(log: seq<Observation>, entries: seq<Fields>)
    ensures AllSamePrincipal(log, entries) <==> forall p | p in Citing(log, entries) :: PairMatches(log, p)
    ensures forall p | p in Citing(log, entries) :: 1 <= p.1 <= |log|
  {
    CitingMembers(log, entries);
    if forall p | p in Citing(log, entries) :: PairMatches(log, p) {
      forall i | 0 <= i < |entries| ensures SamePrincipal(log, entries[i]) {
        var e := entries[i];
        if Cited(log, e).Cites? {
          assert (e, Cited(log, e).number) in Citing(log, entries);
          OnePairMatches(log, e);
        }
      }
    }
  }

  /** All three hold exactly when there is an entry, every entry cites a record of the log, the cited numbers
      increase strictly, and both logs name the same principal. */
  lemma AllHoldExactlyWhen(log: seq<Observation>, entries: seq<Fields>)
    requires InvariantReport(Some(log), entries).Some?
    ensures InvariantReport(Some(log), entries).value.AllHold() <==>
            && entries != [] && (forall i | 0 <= i < |entries| :: Cited(log, entries[i]).Cites?)
            && Increasing(log, entries) && AllSamePrincipal(log, entries)
  {
    if InvariantReport(Some(log), entries).value.AllHold() {
      forall i | 0 <= i < |entries| ensures Cited(log, entries[i]).Cites? {
        assert !AnyIs(log, entries, Dangling) && !AnyIs(log, entries, Uncited) && !AnyIs(log, entries, Unjudgeable);
      }
    } else if entries != [] && forall i | 0 <= i < |entries| :: Cited(log, entries[i]).Cites? {
      assert Cited(log, entries[0]).Cites?;
    }
  }

  /** What an entry cites, by the value of its observation_seq: nothing when it is None; a record when it equals a number
      the log has; a list or an object cannot be looked up at all; anything else dangles. */
  lemma CitedExactlyWhen(log: seq<Observation>, entry: Fields, n: nat)
    ensures var v := Get(entry, "observation_seq");
            && (Cited(log, entry) == Cites(n) <==> v.EqualsInt(n) && 1 <= n <= |log|)
            && (Cited(log, entry) == Uncited <==> v == JNull)
            && (Cited(log, entry) == Unjudgeable <==> v.JArr? || v.JObj?)
            && (Cited(log, entry) == Dangling <==>
                  v != JNull && !v.JArr? && !v.JObj? && !exists m :: v.EqualsInt(m) && 1 <= m <= |log|)
  {
    var v := Get(entry, "observation_seq");
    if m :| v.EqualsInt(m) && 1 <= m <= |log| { assert WholeNumber(v) == Some(m); }
  }

  /** The three statuses, each exactly when. */
  lemma StatusesExactlyWhen(log: seq<Observation>, entries: seq<Fields>)
    requires InvariantReport(Some(log), entries).Some?
    ensures var r := InvariantReport(Some(log), entries).value;
            && (r.i1 == Violated <==> AnyIs(log, entries, Dangling) || (entries != [] && !SomeCites(log, entries)))
            && (r.i1 == Unobservable <==> entries == [])
            && (r.i1 == Partial <==> !AnyIs(log, entries, Dangling) && SomeCites(log, entries) && AnyIs(log, entries, Uncited))
            && (r.i4 == Holds <==> SomeCites(log, entries) && Increasing(log, entries))
            && (r.i4 == Violated <==> entries != [] && !(SomeCites(log, entries) && Increasing(log, entries)))
            && (r.i6 == Holds <==> SomeCites(log, entries) && AllSamePrincipal(log, entries))
            && (r.i6 == Violated <==> entries != [] && !(SomeCites(log, entries) && AllSamePrincipal(log, entries)))
  {
    if AnyIs(log, entries, Dangling) { assert entries != []; }
    if AnyIs(log, entries, Uncited) { assert entries != []; }
  }

  /** Every entry is counted once: as observed, as unobserved, or as dangling. */
  lemma {:induction false} EveryEntryCounted(log: seq<Observation>, entries: seq<Fields>)
    requires !AnyIs(log, entries, Unjudgeable)
    ensures |Citing(log, entries)| + Count(log, entries, Uncited) + Count(log, entries, Dangling) == |entries|
  {
    if entries != [] {
      var n := |entries| - 1;
      assert forall i | 0 <= i < n :: entries[..n][i] == entries[i];
      EveryEntryCounted(log, entries[..n]);
    }
  }

  // ---------------------------------------------------------------- I5

  /** The last observation that names this request. */
  function LastNaming(log: seq<Observation>, request: string): (o: Option<Observation>)
    ensures o.Some? ==> o.value in log && o.value.requestId == JStr(request)
    ensures o.None? ==> forall i | 0 <= i < |log| :: log[i].requestId != JStr(request)
  {
    if log == [] then None
    else if log[|log| - 1].requestId == JStr(request) then Some(log[|log| - 1])
    else LastNaming(log[..|log| - 1], request)
  }

  predicate Matched(log: seq<Observation>, e: Execution) {
    LastNaming(log, e.request).Some? && LastNaming(log, e.request).value.principal == e.principal
  }

  datatype Fate = Undone | Confirmed | Unconfirmed

  function FateOf(log: seq<Observation>, e: Execution): Fate {
    if e.rolledBack then Undone else if Matched(log, e) then Confirmed else Unconfirmed
  }

  /** The numbers of the records that met this fate, in order. */
  function WithFate(log: seq<Observation>, executions: seq<Execution>, f: Fate): seq<nat> {
    if executions == [] then []
    else
      var n := |executions| - 1;
      WithFate(log, executions[..n], f) + if FateOf(log, executions[n]) == f then [executions[n].number] else []
  }

  datatype ExecutionReport = ExecutionReport(status: Status, matched: seq<nat>, unmatched: seq<nat>, rolledBack: seq<nat>)

  predicate AllKeysUsable(log: seq<Observation>) {
    forall i | 0 <= i < |log| :: log[i].requestId.Hashable()
  }

  function StatusOf(matched: seq<nat>, unmatched: seq<nat>): Status {
    if unmatched != [] then Violated else if matched == [] then Partial else Holds
  }

  /** check_execution_invariant; None where the source raises. */
  function ExecutionVerdict(executions: Option<seq<Execution>>, log: Option<seq<Observation>>): Option<ExecutionReport> {
    if executions.None? || log.None? then Some(ExecutionReport(Unobservable, [], [], []))
    else if !AllKeysUsable(log.value) then None
    else
      var matched, unmatched := WithFate(log.value, executions.value, Confirmed), WithFate(log.value, executions.value, Unconfirmed);
      Some(ExecutionReport(StatusOf(matched, unmatched), matched, unmatched,
                           WithFate(log.value, executions.value, Undone)))
  }

  ghost predicate Indexes(byRequest: map<string, Observation>, log: seq<Observation>) {
    forall r: string :: if r in byRequest then LastNaming(log, r) == Some(byRequest[r]) else LastNaming(log, r).None?
  }

  /** The index of the checker, as far as string keys go; None where building it raises. */
  method ByRequest(log: seq<Observation>) returns (byRequest: Option<map<string, Observation>>)
    ensures byRequest.None? <==> !AllKeysUsable(log)
    ensures byRequest.Some? ==> Indexes(byRequest.value, log)
  {
    var index: map<string, Observation> := map[];
    for i := 0 to |log|
      invariant AllKeysUsable(log[..i]) && Indexes(index, log[..i])
    {
      assert log[..i + 1][..i] == log[..i];
      var key := log[i].requestId;
      if !key.Hashable() { return None; }
      if key.JStr? { index := index[key.s := log[i]]; }
    }
    assert log[..|log|] == log;
    return Some(index);
  }

  method CheckExecutionInvariant(executions: ExecutionLog?, observations: ObservationLog?) returns (report: Option<ExecutionReport>)
    ensures report == ExecutionVerdict(if executions == null then None else Some(executions.entries),
                                       if observations == null then None else Some(observations.records))
  {
    if executions == null || observations == null { return Some(ExecutionReport(Unobservable, [], [], [])); }
    var log := observations.records;
    var index := ByRequest(log);
    if index.None? { return None; }
    var byRequest := index.value;
    var matched: seq<nat>, unmatched: seq<nat>, rolledBack: seq<nat> := [], [], [];
    var entries := executions.entries;
    for i := 0 to |entries|
      invariant matched == WithFate(log, entries[..i], Confirmed)
      invariant unmatched == WithFate(log, entries[..i], Unconfirmed)
      invariant rolledBack == WithFate(log, entries[..i], Undone)
    {
      assert entries[..i + 1][..i] == entries[..i];
      var e := entries[i];
      if e.rolledBack {
        rolledBack := rolledBack + [e.number];
      } else if e.request !in byRequest || byRequest[e.request].principal != e.principal {
        unmatched := unmatched + [e.number];
      } else {
        matched := matched + [e.number];
      }
    }
    assert entries[..|entries|] == entries;
    return Some(ExecutionReport(StatusOf(matched, unmatched), matched, unmatched, rolledBack));
  }

  lemma {:induction false} FateListed(log: seq<Observation>, executions: seq<Execution>, f: Fate)
    ensures WithFate(log, executions, f) == [] <==> forall i | 0 <= i < |executions| :: FateOf(log, executions[i]) != f
  {
    if executions != [] {
      var n := |executions| - 1;
      FateListed(log, executions[..n], f);
      if forall i | 0 <= i < n :: FateOf(log, executions[..n][i]) != f {
        assert forall i | 0 <= i < n :: FateOf(log, executions[i]) != f;
      } else {
        var i :| 0 <= i < n && FateOf(log, executions[..n][i]) == f;
        assert FateOf(log, executions[i]) == f;
      }
    }
  }

  /** A number is listed under a fate exactly when a record with this number met it. */
  lemma {:induction false} ListedExactlyWhen(log: seq<Observation>, executions: seq<Execution>, f: Fate, number: nat)
    ensures number in WithFate(log, executions, f) <==>
            exists i :: 0 <= i < |executions| && executions[i].number == number && FateOf(log, executions[i]) == f
  {
    if executions != [] {
      var n := |executions| - 1;
      ListedExactlyWhen(log, executions[..n], f, number);
      if i :| 0 <= i < n && executions[..n][i].number == number && FateOf(log, executions[..n][i]) == f {
        assert executions[i].number == number && FateOf(log, executions[i]) == f;
      }
      if i :| 0 <= i < |executions| && executions[i].number == number && FateOf(log, executions[i]) == f && i < n {
        assert executions[..n][i] == executions[i];
      }
    }
  }

  /** The three lists of the report: what was rolled back, what a matching observation confirms, and what none does. */
  lemma ReportLists(executions: seq<Execution>, log: seq<Observation>, number: nat)
    requires AllKeysUsable(log)
    ensures var r := ExecutionVerdict(Some(executions), Some(log)).value;
            && (number in r.rolledBack <==>
                  exists i :: 0 <= i < |executions| && executions[i].number == number && executions[i].rolledBack)
            && (number in r.matched <==>
                  exists i :: 0 <= i < |executions| && executions[i].number == number && !executions[i].rolledBack
                              && Matched(log, executions[i]))
            && (number in r.unmatched <==>
                  exists i :: 0 <= i < |executions| && executions[i].number == number && !executions[i].rolledBack
                              && !Matched(log, executions[i]))
  {
    ListedExactlyWhen(log, executions, Undone, number);
    ListedExactlyWhen(log, executions, Confirmed, number);
    ListedExactlyWhen(log, executions, Unconfirmed, number);
  }

  /** The four answers of the execution check, each exactly when. */
  lemma ExecutionStatusExactlyWhen(executions: seq<Execution>, log: seq<Observation>)
    requires AllKeysUsable(log)
    ensures var status := ExecutionVerdict(Some(executions), Some(log)).value.status;
            && (status == Violated <==>
                  exists i :: 0 <= i < |executions| && !executions[i].rolledBack && !Matched(log, executions[i]))
            && (status == Holds <==>
                  && (forall i | 0 <= i < |executions| :: executions[i].rolledBack || Matched(log, executions[i]))
                  && (exists i :: 0 <= i < |executions| && !executions[i].rolledBack))
            && (status == Partial <==> forall i | 0 <= i < |executions| :: executions[i].rolledBack)
  {
    FateListed(log, executions, Confirmed);
    FateListed(log, executions, Unconfirmed);
    if i :| 0 <= i < |executions| && !executions[i].rolledBack && !Matched(log, executions[i]) {
      assert FateOf(log, executions[i]) == Unconfirmed;
    } else if i :| 0 <= i < |executions| && !executions[i].rolledBack {
      assert FateOf(log, executions[i]) == Confirmed;
    } else {
      assert forall i | 0 <= i < |executions| :: FateOf(log, executions[i]) == Undone;
    }
  }
}
