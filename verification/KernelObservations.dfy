/** The checkers agree with the kernel: what check_invariants and check_execution_invariant answer after any run. */
module KernelObservations {
  import opened Domain
  import opened JsonValues
  import opened Kernel
  import opened Rulings
  import opened KernelSteps
  import opened KernelRuns
  import opened KernelOrigin
  import opened KernelExecutions
  import opened Observations
  import ExecutionLogs
  import Grants

  // ---------------------------------------------------------------- one call and the two logs

  /** The call is audited with the number of its observation: it got past authentication, and its request id can be
      a dictionary key. */
  predicate Identified(c: Call) {
    Authentic(c) && Get(Canon(c), "request_id").Hashable()
  }

  function NewObservations(k: Config, log: seq<Observation>, c: Call): seq<Observation> {
    if Authentic(c) then [Observation(|log| + 1, Who(c), Get(Canon(c), "request_id"), ContentHash(k, c))] else []
  }

  /** The entry cites the observation of its own call, and names the principal that call authenticated as. */
  predicate CitesOwn(e: AuditEntry, log: seq<Observation>, c: Call) {
    && e.observation == (if Identified(c) then Some(|log| + 1) else None)
    && (Authentic(c) ==> e.bound == Some(Who(c)))
  }

  /** What one call adds to the observation log and to the audit log. */
  predicate Adds(k: Config, s: State, c: Call, t: State) {
    && s.observations.Some? ==>
         && t.observations == Some(s.observations.value + NewObservations(k, s.observations.value, c))
         && AtMostOneMore(s.audit, t.audit)
         && (|t.audit| > |s.audit| <==> Recorded(c))
         && (Recorded(c) ==> CitesOwn(t.audit[|s.audit|], s.observations.value, c))
  }

  lemma NoticedAdds(k: Config, s: State, c: Call)
    requires s.observations.Some?
    ensures var log := s.observations.value;
            && Seen(k, s, c).observations == Some(log + NewObservations(k, log, c))
            && Noticed(k, s, c).1 == (if Identified(c) then Some(|log| + 1) else None)
  {
    assert s.observations.value + [] == s.observations.value;
  }

  lemma CallAdds(k: Config, s: State, c: Call)
    ensures Adds(k, s, c, Gated(k, s, c).0)
  {
    if s.observations.Some? {
      NoticedAdds(k, s, c);
      ObservationParts(k, s, c);
      AuditParts(k, s, c);
      RuledLawful(k, s, c);
    }
  }

  /** A kernel without an observation log never gets one, and its entries cite nothing. */
  lemma NothingObserved(k: Config, s: State, c: Call)
    requires s.observations.None?
    ensures Gated(k, s, c).0.observations.None?
    ensures Recorded(c) ==> |Gated(k, s, c).0.audit| > |s.audit| && Gated(k, s, c).0.audit[|s.audit|].observation.None?
  {
    ObservationParts(k, s, c);
    AuditParts(k, s, c);
  }

  ghost predicate AddsAlways(k: Config, m: Machine) {
    forall s: State, c: Call :: Adds(k, s, c, m(s, c).0)
  }

  lemma MediatorAdds(k: Config)
    ensures AddsAlways(k, Mediates(k))
  {
    forall s: State, c: Call ensures Adds(k, s, c, Mediates(k)(s, c).0) {
      CallAdds(k, s, c);
    }
  }

  // ---------------------------------------------------------------- the two logs fit together

  /** The entry cites nothing, or a record of the log that names the same principal. */
  predicate Fits(log: seq<Observation>, e: AuditEntry) {
    e.observation.Some? ==> 1 <= e.observation.value <= |log| && e.bound == Some(log[e.observation.value - 1].principal)
  }

  predicate Ordered(audit: seq<AuditEntry>) {
    forall i, j | 0 <= i < j < |audit| && audit[i].observation.Some? && audit[j].observation.Some? ::
      audit[i].observation.value < audit[j].observation.value
  }

  predicate FitTogether(log: seq<Observation>, audit: seq<AuditEntry>) {
    InOrder(log) && (forall i | 0 <= i < |audit| :: Fits(log, audit[i])) && Ordered(audit)
  }

  lemma StillFit(k: Config, s: State, c: Call, t: State)
    requires s.observations.Some? && Adds(k, s, c, t) && FitTogether(s.observations.value, s.audit)
    ensures t.observations.Some? && FitTogether(t.observations.value, t.audit)
  {
    var log, log' := s.observations.value, t.observations.value;
    forall i | 0 <= i < |t.audit| ensures Fits(log', t.audit[i]) {
      if i < |s.audit| {
        assert t.audit[i] == s.audit[i];
        assert Fits(log, s.audit[i]);
      }
    }
    StillOrdered(log, s.audit, t.audit);
  }

  lemma StillOrdered(log: seq<Observation>, audit: seq<AuditEntry>, audit': seq<AuditEntry>)
    requires Ordered(audit) && forall i | 0 <= i < |audit| :: Fits(log, audit[i])
    requires AtMostOneMore(audit, audit')
    requires |audit'| > |audit| && audit'[|audit|].observation.Some? ==> audit'[|audit|].observation.value == |log| + 1
    ensures Ordered(audit')
  {
    forall i, j | 0 <= i < j < |audit'| && audit'[i].observation.Some? && audit'[j].observation.Some?
      ensures audit'[i].observation.value < audit'[j].observation.value
    {
      assert audit'[i] == audit[i];
      assert Fits(log, audit[i]);
      if j < |audit| { assert audit'[j] == audit[j]; }
    }
  }

  /** The calls whose audit record was appended, among the first n. */
  function Audited(calls: seq<Call>, n: nat): seq<Call>
    requires n <= |calls|
  {
    if n == 0 then [] else Audited(calls, n - 1) + if Recorded(calls[n - 1]) then [calls[n - 1]] else []
  }

  predicate EntriesOf(audit: seq<AuditEntry>, audited: seq<Call>) {
    |audit| == |audited| && forall i | 0 <= i < |audit| :: (audit[i].observation.Some? <==> Identified(audited[i]))
  }

  lemma StillEntriesOf(k: Config, s: State, c: Call, t: State, audited: seq<Call>)
    requires s.observations.Some? && Adds(k, s, c, t) && EntriesOf(s.audit, audited)
    ensures EntriesOf(t.audit, audited + if Recorded(c) then [c] else [])
  {
    var audited' := audited + if Recorded(c) then [c] else [];
    forall i | 0 <= i < |t.audit| ensures t.audit[i].observation.Some? <==> Identified(audited'[i]) {
      if i < |s.audit| { assert t.audit[i] == s.audit[i]; }
    }
  }

  /** Observations attached, both logs empty. */
  predicate Observing(start: State) {
    start.observations == Some([]) && start.audit == []
  }

  lemma {:induction false} LogsFit(k: Config, m: Machine, start: State, calls: seq<Call>, n: nat)
    requires AddsAlways(k, m) && Observing(start) && n <= |calls|
    ensures var s := Before(m, start, calls, n);
            s.observations.Some? && FitTogether(s.observations.value, s.audit) && EntriesOf(s.audit, Audited(calls, n))
  {
    if n > 0 {
      var s, t := Before(m, start, calls, n - 1), Before(m, start, calls, n);
      LogsFit(k, m, start, calls, n - 1);
      assert Adds(k, s, calls[n - 1], t);
      StillFit(k, s, calls[n - 1], t);
      StillEntriesOf(k, s, calls[n - 1], t, Audited(calls, n - 1));
    }
  }

  // ---------------------------------------------------------------- I1, I4 and I6

  /** What the checker reads of an audit entry; redaction leaves principal ids as they are. */
  function Read(e: AuditEntry): Fields {
    map["observation_seq" := if e.observation.Some? then JInt(e.observation.value) else JNull,
        "bound_principal" := OptStr(e.bound)]
  }

  function ReadAll(audit: seq<AuditEntry>): (r: seq<Fields>)
    ensures |r| == |audit|
    ensures forall i | 0 <= i < |r| :: r[i] == Read(audit[i])
  {
    seq(|audit|, i requires 0 <= i < |audit| => Read(audit[i]))
  }

  lemma ReadCitation(log: seq<Observation>, e: AuditEntry)
    requires Fits(log, e)
    ensures Cited(log, Read(e)) == if e.observation.Some? then Cites(e.observation.value) else Uncited
    ensures SamePrincipal(log, Read(e))
  {
  }

  /** Logs that fit together never show a dangling, out-of-order or mismatched pair. */
  lemma FittingLogsPass(log: seq<Observation>, audit: seq<AuditEntry>)
    requires FitTogether(log, audit)
    ensures !AnyIs(log, ReadAll(audit), Dangling) && !AnyIs(log, ReadAll(audit), Unjudgeable)
    ensures Increasing(log, ReadAll(audit)) && AllSamePrincipal(log, ReadAll(audit))
    ensures SomeCites(log, ReadAll(audit)) <==> exists i :: 0 <= i < |audit| && audit[i].observation.Some?
    ensures AnyIs(log, ReadAll(audit), Uncited) <==> exists i :: 0 <= i < |audit| && audit[i].observation.None?
  {
    forall i | 0 <= i < |audit|
      ensures Cited(log, ReadAll(audit)[i]) == if audit[i].observation.Some? then Cites(audit[i].observation.value) else Uncited
      ensures SamePrincipal(log, ReadAll(audit)[i])
    {
      assert Fits(log, audit[i]);
      ReadCitation(log, audit[i]);
    }
  }

  /** The answer that the calls themselves deserve. */
  predicate Deserved(audited: seq<Call>, r: Report) {
    var some := exists i :: 0 <= i < |audited| && Identified(audited[i]);
    var all := forall i | 0 <= i < |audited| :: Identified(audited[i]);
    && (r.i1 == Unobservable <==> audited == [])
    && (r.i1 == Violated <==> audited != [] && !some)
    && (r.i1 == Partial <==> some && !all)
    && (r.i1 == Status.Holds <==> audited != [] && all)
    && (some ==> r.i4 == Status.Holds && r.i6 == Status.Holds)
  }

  lemma FittingLogsDeserve(log: seq<Observation>, audit: seq<AuditEntry>, audited: seq<Call>)
    requires FitTogether(log, audit) && EntriesOf(audit, audited)
    ensures var r := InvariantReport(Some(log), ReadAll(audit)); r.Some? && Deserved(audited, r.value)
  {
    FittingLogsPass(log, audit);
    if i :| 0 <= i < |audited| && Identified(audited[i]) {
      assert audit[i].observation.Some?;
    }
    if i :| 0 <= i < |audited| && !Identified(audited[i]) {
      assert audit[i].observation.None?;
    }
    if i :| 0 <= i < |audit| && audit[i].observation.None? {
      assert !Identified(audited[i]);
    }
    if i :| 0 <= i < |audit| && audit[i].observation.Some? {
      assert Identified(audited[i]);
    }
  }

  /** After any run, I1 is HOLDS, PARTIAL, VIOLATED or UNOBSERVABLE exactly according to which audited calls were
      identified, and I4 and I6 hold whenever one was. */
  lemma CheckerAgreesWithKernel(k: Config, start: State, calls: seq<Call>, n: nat)
    requires Observing(start) && n <= |calls|
    ensures var s := Before(Mediates(k), start, calls, n);
            var r := InvariantReport(s.observations, ReadAll(s.audit));
            r.Some? && Deserved(Audited(calls, n), r.value)
  {
    MediatorAdds(k);
    LogsFit(k, Mediates(k), start, calls, n);
    var s := Before(Mediates(k), start, calls, n);
    FittingLogsDeserve(s.observations.value, s.audit, Audited(calls, n));
  }

  // ---------------------------------------------------------------- I5

  /** The first n calls that authenticated, seen from the logs: every observation is one of them and the reverse. */
  predicate ObservedBy(o: Observation, c: Call) {
    Authentic(c) && o.principal == Who(c) && o.requestId == Get(Canon(c), "request_id")
  }

  predicate FromCall(o: Observation, calls: seq<Call>, n: nat)
    requires n <= |calls|
  {
    exists x :: 0 <= x < n && ObservedBy(o, calls[x])
  }

  predicate InLog(log: seq<Observation>, c: Call) {
    exists i :: 0 <= i < |log| && ObservedBy(log[i], c)
  }

  predicate ObservationsAreCalls(log: seq<Observation>, calls: seq<Call>, n: nat)
    requires n <= |calls|
  {
    && (forall i | 0 <= i < |log| :: FromCall(log[i], calls, n))
    && (forall x | 0 <= x < n && Authentic(calls[x]) :: InLog(log, calls[x]))
  }

  lemma InLongerLog(log: seq<Observation>, more: seq<Observation>, c: Call)
    requires InLog(log, c)
    ensures InLog(log + more, c)
  {
    var i :| 0 <= i < |log| && ObservedBy(log[i], c);
    assert ObservedBy((log + more)[i], c);
  }

  lemma StillCalls(k: Config, log: seq<Observation>, calls: seq<Call>, n: nat)
    requires 0 < n <= |calls| && ObservationsAreCalls(log, calls, n - 1)
    ensures ObservationsAreCalls(log + NewObservations(k, log, calls[n - 1]), calls, n)
  {
    var last := calls[n - 1];
    var log' := log + NewObservations(k, log, last);
    forall i | 0 <= i < |log'| ensures FromCall(log'[i], calls, n) {
      if i < |log| {
        assert FromCall(log[i], calls, n - 1) && log'[i] == log[i];
      } else {
        assert ObservedBy(log'[i], last);
      }
    }
    forall x | 0 <= x < n && Authentic(calls[x]) ensures InLog(log', calls[x]) {
      if x < n - 1 {
        InLongerLog(log, NewObservations(k, log, last), calls[x]);
      } else {
        assert ObservedBy(log'[|log|], last);
      }
    }
  }

  lemma {:induction false} RunObservesCalls(k: Config, m: Machine, start: State, calls: seq<Call>, n: nat)
    requires AddsAlways(k, m) && Observing(start) && n <= |calls|
    ensures var s := Before(m, start, calls, n);
            s.observations.Some? && ObservationsAreCalls(s.observations.value, calls, n)
  {
    if n > 0 {
      RunObservesCalls(k, m, start, calls, n - 1);
      var s, t := Before(m, start, calls, n - 1), Before(m, start, calls, n);
      assert Adds(k, s, calls[n - 1], t);
      StillCalls(k, s.observations.value, calls, n);
    }
  }

  /** Request ids are non-empty strings, str leaves them alone, and no two principals use the same one. */
  ghost predicate WellNamed(k: Config, calls: seq<Call>) {
    && (forall text: string :: k.str(JStr(text)) == text)
    && (forall x | 0 <= x < |calls| && Authentic(calls[x]) :: Get(Canon(calls[x]), "request_id").NonEmptyString())
    && (forall x, y | 0 <= x < |calls| && 0 <= y < |calls| && Authentic(calls[x]) && Authentic(calls[y]) ::
          Get(Canon(calls[x]), "request_id") == Get(Canon(calls[y]), "request_id") ==> Who(calls[x]) == Who(calls[y]))
  }

  lemma RequestText(k: Config, calls: seq<Call>, x: nat)
    requires WellNamed(k, calls) && x < |calls| && Authentic(calls[x])
    ensures Get(Canon(calls[x]), "request_id") == JStr(k.TextOr(Get(Canon(calls[x]), "request_id")))
  {
  }

  lemma SameRequestSamePrincipal(k: Config, calls: seq<Call>, x: nat, y: nat)
    requires WellNamed(k, calls) && x < |calls| && y < |calls| && Authentic(calls[x]) && Authentic(calls[y])
    requires Get(Canon(calls[x]), "request_id") == Get(Canon(calls[y]), "request_id")
    ensures Who(calls[x]) == Who(calls[y])
  {
  }

  /** The last observation naming a call's request is of a call by the same principal. */
  lemma LastNamingOfCall(k: Config, log: seq<Observation>, calls: seq<Call>, n: nat, x: nat, request: string)
    requires n <= |calls| && WellNamed(k, calls) && ObservationsAreCalls(log, calls, n)
    requires x < n && Authentic(calls[x]) && Get(Canon(calls[x]), "request_id") == JStr(request)
    ensures LastNaming(log, request).Some? && LastNaming(log, request).value.principal == Who(calls[x])
  {
    assert InLog(log, calls[x]);
    var i :| 0 <= i < |log| && ObservedBy(log[i], calls[x]);
    assert log[i].requestId == JStr(request);
    var last := LastNaming(log, request).value;
    var j :| 0 <= j < |log| && log[j] == last;
    assert FromCall(log[j], calls, n);
    var y :| 0 <= y < n && ObservedBy(log[j], calls[y]);
    SameRequestSamePrincipal(k, calls, x, y);
  }

  /** A record made for the grant that call x filed is matched. */
  lemma FiledExecutionMatches(k: Config, log: seq<Observation>, calls: seq<Call>, n: nat, e: ExecutionLogs.Execution, x: nat)
    requires n <= |calls| && WellNamed(k, calls) && ObservationsAreCalls(log, calls, n)
    requires x < n && Authentic(calls[x]) && e.principal == Who(calls[x])
    requires e.request == k.TextOr(Get(Canon(calls[x]), "request_id"))
    ensures Matched(log, e)
  {
    RequestText(k, calls, x);
    LastNamingOfCall(k, log, calls, n, x, e.request);
  }

  lemma KeysUsable(k: Config, log: seq<Observation>, calls: seq<Call>, n: nat)
    requires n <= |calls| && WellNamed(k, calls) && ObservationsAreCalls(log, calls, n)
    ensures AllKeysUsable(log)
  {
    forall i | 0 <= i < |log| ensures log[i].requestId.Hashable() {
      assert FromCall(log[i], calls, n);
      var x :| 0 <= x < n && ObservedBy(log[i], calls[x]);
      assert Get(Canon(calls[x]), "request_id").NonEmptyString();
    }
  }

  lemma LiveExecutionMatches(k: Config, m: Machine, start: State, calls: seq<Call>, n: nat, i: nat)
    requires KeepsCoupled(m) && KeepsAligned(m) && TracesAll(k, m) && FreshlyBuilt(start) && n <= |calls| && WellNamed(k, calls)
    requires var s := Before(m, start, calls, n);
             && s.grants.log.Some? && i < |s.grants.log.value| && !s.grants.log.value[i].rolledBack
             && s.observations.Some? && ObservationsAreCalls(s.observations.value, calls, n)
    ensures var s := Before(m, start, calls, n); Matched(s.observations.value, s.grants.log.value[i])
  {
    var s := Before(m, start, calls, n);
    RunCoupled(m, start, calls, n);
    var id := RecordOfGrant(s, i);
    var x, j := Roots(k, m, start, calls, n, id);
    FiledExecutionMatches(k, s.observations.value, calls, n, s.grants.log.value[i], x);
  }

  lemma RecordOfGrant(s: State, i: nat) returns (id: string)
    requires CoupledState(s) && i < |s.grants.log.value| && !s.grants.log.value[i].rolledBack
    ensures Filed(s, id) && id == s.grants.log.value[i].escalation
    ensures var e, g := s.grants.log.value[i], s.grants.cells[id].grant;
            e.request == g.terms.request && e.principal == g.terms.principal
  {
    id := LiveIsConsumed(s, i);
    assert Grants.LiveIsNamed(s.grants.cells, s.grants.log.value[i]);
    assert Grants.CellAgrees(s.grants.log.value, id, s.grants.cells[id]);
  }

  /** With both logs attached and request ids well named, after any run -- whatever failed in it -- the execution
      check never answers VIOLATED, and answers HOLDS exactly when some record stands. */
  lemma ExecutionCheckAgrees(k: Config, start: State, calls: seq<Call>, n: nat)
    requires FreshlyBuilt(start) && Observing(start) && n <= |calls| && WellNamed(k, calls)
    ensures var s := Before(Mediates(k), start, calls, n);
            var v := ExecutionVerdict(s.grants.log, s.observations);
            && s.grants.log.Some? && v.Some? && v.value.status != Violated
            && (v.value.status == Status.Holds <==> exists i :: 0 <= i < |s.grants.log.value| && !s.grants.log.value[i].rolledBack)
  {
    var m := Mediates(k);
    MediatorAdds(k);
    MediatorTraces(k);
    MediatorKeepsCoupled(k);
    AgreesFor(k, m, start, calls, n);
  }

  lemma AgreesFor(k: Config, m: Machine, start: State, calls: seq<Call>, n: nat)
    requires AddsAlways(k, m) && KeepsCoupled(m) && KeepsAligned(m) && TracesAll(k, m)
    requires FreshlyBuilt(start) && Observing(start) && n <= |calls| && WellNamed(k, calls)
    ensures var s := Before(m, start, calls, n);
            var v := ExecutionVerdict(s.grants.log, s.observations);
            && s.grants.log.Some? && v.Some? && v.value.status != Violated
            && (v.value.status == Status.Holds <==> exists i :: 0 <= i < |s.grants.log.value| && !s.grants.log.value[i].rolledBack)
  {
    var s := Before(m, start, calls, n);
    RunCoupled(m, start, calls, n);
    RunObservesCalls(k, m, start, calls, n);
    var log, executions := s.observations.value, s.grants.log.value;
    KeysUsable(k, log, calls, n);
    forall i | 0 <= i < |executions| && !executions[i].rolledBack ensures Matched(log, executions[i]) {
      LiveExecutionMatches(k, m, start, calls, n, i);
    }
    ExecutionStatusExactlyWhen(executions, log);
  }

  // ---------------------------------------------------------------- exactly when the execution check complains

  predicate Carries(c: Call, text: string) {
    Authentic(c) && Get(Canon(c), "request_id") == JStr(text)
  }

  /** The last of the first n calls that authenticated and carries this text as its request id. */
  function LastCarrier(calls: seq<Call>, n: nat, text: string): (y: Option<nat>)
    requires n <= |calls|
    ensures y.Some? ==> y.value < n && Carries(calls[y.value], text)
    ensures y.Some? ==> forall x | y.value < x < n :: !Carries(calls[x], text)
    ensures y.None? ==> forall x | 0 <= x < n :: !Carries(calls[x], text)
  {
    if n == 0 then None
    else if Carries(calls[n - 1], text) then Some(n - 1)
    else LastCarrier(calls, n - 1, text)
  }

  /** The observation log of the first n calls. */
  function CallLog(k: Config, calls: seq<Call>, n: nat): seq<Observation>
    requires n <= |calls|
  {
    if n == 0 then [] else CallLog(k, calls, n - 1) + NewObservations(k, CallLog(k, calls, n - 1), calls[n - 1])
  }

  lemma {:induction false} LogIsCallLog(k: Config, m: Machine, start: State, calls: seq<Call>, n: nat)
    requires AddsAlways(k, m) && Observing(start) && n <= |calls|
    ensures Before(m, start, calls, n).observations == Some(CallLog(k, calls, n))
  {
    if n > 0 {
      LogIsCallLog(k, m, start, calls, n - 1);
      assert Adds(k, Before(m, start, calls, n - 1), calls[n - 1], Before(m, start, calls, n));
    }
  }

  lemma CallLogNext(k: Config, calls: seq<Call>, n: nat)
    requires 0 < n <= |calls|
    ensures CallLog(k, calls, n) == CallLog(k, calls, n - 1) + NewObservations(k, CallLog(k, calls, n - 1), calls[n - 1])
  {
  }

  lemma LastNamingSnoc(log: seq<Observation>, o: Observation, text: string)
    ensures LastNaming(log + [o], text) == if o.requestId == JStr(text) then Some(o) else LastNaming(log, text)
  {
    assert (log + [o])[..|log|] == log;
  }

  /** What the log says about a text agrees with the calls. */
  predicate Agree(o: Option<Observation>, calls: seq<Call>, y: Option<nat>) {
    && (o.Some? <==> y.Some?)
    && (o.Some? ==> y.value < |calls| && Authentic(calls[y.value]) && o.value.principal == Who(calls[y.value]))
  }

  /** What a log says about a text agrees with the first n calls. */
  predicate AgreesOn(log: seq<Observation>, calls: seq<Call>, n: nat, text: string)
    requires n <= |calls|
  {
    Agree(LastNaming(log, text), calls, LastCarrier(calls, n, text))
  }

  lemma {:induction false} LastNamingIsLastCarrier(k: Config, log: seq<Observation>, calls: seq<Call>, n: nat, text: string)
    requires n <= |calls| && log == CallLog(k, calls, n)
    ensures AgreesOn(log, calls, n, text)
    decreases n
  {
    if n > 0 {
      var before := CallLog(k, calls, n - 1);
      LastNamingIsLastCarrier(k, before, calls, n - 1, text);
      CallLogNext(k, calls, n);
      OneCallMore(k, before, log, calls, n, text);
    }
  }

  lemma OneCallMore(k: Config, log: seq<Observation>, log': seq<Observation>, calls: seq<Call>, n: nat, text: string)
    requires 0 < n <= |calls| && AgreesOn(log, calls, n - 1, text)
    requires log' == log + NewObservations(k, log, calls[n - 1])
    ensures AgreesOn(log', calls, n, text)
  {
    if Authentic(calls[n - 1]) {
      LastNamingSnoc(log, NewObservations(k, log, calls[n - 1])[0], text);
    } else {
      assert log + [] == log;
    }
  }

  lemma {:induction false} CallLogKeys(k: Config, calls: seq<Call>, n: nat)
    requires n <= |calls|
    ensures AllKeysUsable(CallLog(k, calls, n)) <==>
            forall x | 0 <= x < n && Authentic(calls[x]) :: Get(Canon(calls[x]), "request_id").Hashable()
  {
    if n > 0 {
      CallLogKeys(k, calls, n - 1);
      var before, log := CallLog(k, calls, n - 1), CallLog(k, calls, n);
      assert forall i | 0 <= i < |before| :: log[i] == before[i];
      if Authentic(calls[n - 1]) { assert log[|before|].requestId == Get(Canon(calls[n - 1]), "request_id"); }
    }
  }

  /** The call's request text is borne, as a string id, by some observed call, and the last such is by the same principal. */
  predicate Answered(k: Config, calls: seq<Call>, n: nat, x: nat)
    requires n <= |calls| && x < |calls| && Authentic(calls[x])
  {
    var y := LastCarrier(calls, n, k.TextOr(Get(Canon(calls[x]), "request_id")));
    y.Some? && Who(calls[y.value]) == Who(calls[x])
  }

  /** Record i stands, and the call that filed its escalation is not answered. */
  predicate Unanswered(k: Config, m: Machine, start: State, calls: seq<Call>, n: nat, i: nat, x: nat)
    requires n <= |calls|
  {
    var log := Before(m, start, calls, n).grants.log;
    && log.Some? && i < |log.value| && !log.value[i].rolledBack
    && x < n && Authentic(calls[x]) && FilesAt(m, start, calls, x, log.value[i].escalation)
    && !Answered(k, calls, n, x)
  }

  /** A standing record is matched exactly when the call that filed its escalation is answered. */
  lemma MatchedExactlyWhenAnswered(k: Config, m: Machine, start: State, calls: seq<Call>, n: nat, i: nat) returns (x: nat)
    requires KeepsCoupled(m) && KeepsAligned(m) && TracesAll(k, m) && FreshlyBuilt(start) && n <= |calls|
    requires var log := Before(m, start, calls, n).grants.log; log.Some? && i < |log.value| && !log.value[i].rolledBack
    ensures var e := Before(m, start, calls, n).grants.log.value[i];
            && x < n && Authentic(calls[x]) && FilesAt(m, start, calls, x, e.escalation)
            && (Matched(CallLog(k, calls, n), e) <==> Answered(k, calls, n, x))
  {
    var s := Before(m, start, calls, n);
    RunCoupled(m, start, calls, n);
    var id := RecordOfGrant(s, i);
    var j;
    x, j := Roots(k, m, start, calls, n, id);
    LastNamingIsLastCarrier(k, CallLog(k, calls, n), calls, n, s.grants.log.value[i].request);
  }

  lemma OneFiling(m: Machine, start: State, calls: seq<Call>, x: nat, y: nat, id: string)
    requires AdvancesRecords(m) && KeepsAligned(m) && FromScratch(start) && x < |calls| && y < |calls|
    requires FilesAt(m, start, calls, x, id) && FilesAt(m, start, calls, y, id)
    ensures x == y
  {
    if x < y { FiledAndDecidedOnce(m, start, calls, x, y, id); }
    if y < x { FiledAndDecidedOnce(m, start, calls, y, x, id); }
  }

  /** For any machine with the mediator's step properties. */
  lemma ComplainsExactlyWhen(k: Config, m: Machine, start: State, calls: seq<Call>, n: nat)
    requires AddsAlways(k, m) && KeepsCoupled(m) && KeepsAligned(m) && TracesAll(k, m) && AdvancesRecords(m)
    requires FreshlyBuilt(start) && Observing(start) && n <= |calls|
    requires forall x | 0 <= x < n && Authentic(calls[x]) :: Get(Canon(calls[x]), "request_id").Hashable()
    ensures var s := Before(m, start, calls, n);
            var v := ExecutionVerdict(s.grants.log, s.observations);
            && v.Some? && (v.value.status == Violated <==> exists i: nat, x: nat :: Unanswered(k, m, start, calls, n, i, x))
  {
    var s := Before(m, start, calls, n);
    RunCoupled(m, start, calls, n);
    LogIsCallLog(k, m, start, calls, n);
    CallLogKeys(k, calls, n);
    var executions, log := s.grants.log.value, CallLog(k, calls, n);
    ExecutionStatusExactlyWhen(executions, log);
    if i :| 0 <= i < |executions| && !executions[i].rolledBack && !Matched(log, executions[i]) {
      var x := MatchedExactlyWhenAnswered(k, m, start, calls, n, i);
      assert Unanswered(k, m, start, calls, n, i, x);
    }
    if i: nat, x: nat :| Unanswered(k, m, start, calls, n, i, x) {
      var y := MatchedExactlyWhenAnswered(k, m, start, calls, n, i);
      OneFiling(m, start, calls, x, y, executions[i].escalation);
    }
  }

  /** After any run, the execution check answers VIOLATED exactly when, for some standing record, no observed call
      carries the request text of the call that filed its escalation as its string id, or the last one that does is by
      another principal. It raises exactly when some observed id cannot be a dictionary key. */
  lemma ViolatedExactlyWhen(k: Config, start: State, calls: seq<Call>, n: nat)
    requires FreshlyBuilt(start) && Observing(start) && n <= |calls|
    ensures var s := Before(Mediates(k), start, calls, n);
            var v := ExecutionVerdict(s.grants.log, s.observations);
            && (v.Some? <==> forall x | 0 <= x < n && Authentic(calls[x]) :: Get(Canon(calls[x]), "request_id").Hashable())
            && (v.Some? ==>
                  (v.value.status == Violated <==> exists i: nat, x: nat :: Unanswered(k, Mediates(k), start, calls, n, i, x)))
  {
    MediatorAdds(k);
    MediatorTraces(k);
    MediatorKeepsCoupled(k);
    MediatorAdvancesRecords(k);
    LogIsCallLog(k, Mediates(k), start, calls, n);
    CallLogKeys(k, calls, n);
    RunCoupled(Mediates(k), start, calls, n);
    if forall x | 0 <= x < n && Authentic(calls[x]) :: Get(Canon(calls[x]), "request_id").Hashable() {
      ComplainsExactlyWhen(k, Mediates(k), start, calls, n);
    }
  }
}
