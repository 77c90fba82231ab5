/** Concrete runs in which the kernel behaves as it should and the execution check answers VIOLATED. */
module KernelExamples {
  import opened Domain
  import opened JsonValues
  import opened Authorization
  import opened Policies
  import opened Kernel
  import opened Rulings
  import opened KernelSteps
  import opened KernelRuns
  import opened KernelOrigin
  import opened KernelExecutions
  import opened KernelExact
  import KernelObservations
  import Mandates
  import Registry
  import Grants
  import Escalations
  import Evidence
  import Observations

  const AGENT := "agent"
  const ESC := "esc-1"

  /** The agent may COMMIT in one repository; the Owner may decide. */
  const AGENT_CAP := Capability("cap-1", AGENT, REng, {"repo"}, {Commit}, High, "Owner", 1000, false, 1, None)
  const OWNER_CAP := Capability("cap-2", OWNER, RDec, {}, {}, Low, "Owner", 1000, false, 1, None)
  const CAPS := [AGENT_CAP, OWNER_CAP]

  function Sha(f: Fields): string {
    "ab"
  }

  function Str(v: Json): string {
    if v.JStr? then v.s else "?"
  }

  const CONFIG := Config(Sha, Str, (c: Capability) => c.id, 3600, false, Mandates.Reader((s: string) => None, (s: string) => ""))

  const BUILT := State(Some(FromBody(Sha, "1", map[])), map[], Grants.GrantState(map[], Some([])), Evidence.Journal([], map[]),
                       Some([]), [])

  /** A request to COMMIT, with or without a request id. */
  function Commitment(requestId: Option<string>): Fields {
    var f := map["action_type" := JStr("COMMIT"), "domain" := JStr("repo"), "risk_level" := JStr("LOW"), "agent_id" := JStr(AGENT)];
    if requestId.Some? then f["request_id" := JStr(requestId.value)] else f
  }

  function CallOf(op: Operation, who: string, canon: Fields): Call {
    Call(op, true, Some(canon), Identified(true, Some(who), "authn.ok"), CAPS, None, 0, Matches("id", false), Matches("id", false),
         ESC, "rg-1", true, Returned("hash"))
  }

  /** evaluate, the Owner's permit, and the re-entry. */
  function ThreeCalls(requestId: Option<string>): seq<Call> {
    [CallOf(Evaluate, AGENT, Commitment(requestId)),
     CallOf(Decide, OWNER, map["owner_decision" := JStr("permit"), "escalation_id" := JStr(ESC)]),
     CallOf(Reenter, AGENT, Commitment(requestId)["escalation_id" := JStr(ESC)])]
  }

  /** ... and then somebody else's malformed request under the same request id. */
  function FourCalls(requestId: string): seq<Call> {
    ThreeCalls(Some(requestId)) + [CallOf(Evaluate, "other", map["request_id" := JStr(requestId)])]
  }

  lemma PolicyServes()
    ensures !PolicyBlocks(CONFIG, BUILT.policy)
  {
    assert Sha(map[])[0] == 'a';
    FreshPolicyServes(Sha, "1", map[], 'a');
  }

  lemma ActiveCapabilities()
    ensures Registry.ActiveFor(CAPS, AGENT, 0) == [AGENT_CAP]
    ensures Registry.ActiveFor(CAPS, OWNER, 0) == [OWNER_CAP]
  {
    var last := [OWNER_CAP];
    assert OWNER[0] != AGENT[0] && AGENT_CAP.Active(0) && OWNER_CAP.Active(0);
    assert last[1..] == [] && CAPS[1..] == last;
    assert Registry.ActiveFor(last[1..], AGENT, 0) == [] && Registry.ActiveFor(last[1..], OWNER, 0) == [];
    assert Registry.ActiveFor(last, AGENT, 0) == [] + [] && Registry.ActiveFor(last, OWNER, 0) == [OWNER_CAP] + [];
    assert Registry.ActiveFor(CAPS, AGENT, 0) == [AGENT_CAP] + [] && Registry.ActiveFor(CAPS, OWNER, 0) == [] + [OWNER_CAP];
  }

  lemma OneCandidate(c: Call, p: Parsed)
    requires p.Asked? && c.caps == CAPS && c.now == 0
    ensures EvaluateCapability(CONFIG, c, AGENT, p) == Some(AGENT_CAP)
  {
    ActiveCapabilities();
  }

  lemma OwnerHolds()
    ensures Holds(CAPS, OWNER, RDec, 0)
  {
    ActiveCapabilities();
    var active := Registry.ActiveFor(CAPS, OWNER, 0);
    assert active[1..] == [];
    assert WithRole(active, RDec) == [OWNER_CAP];
  }

  lemma CommitmentAsks(requestId: Option<string>)
    ensures Parse(Commitment(requestId)) == Asked(Commit, "repo", Low)
    ensures Parse(Commitment(requestId)["escalation_id" := JStr(ESC)]) == Asked(Commit, "repo", Low)
    ensures Commitment(requestId)["escalation_id" := JStr(ESC)] - PER_MESSAGE == Commitment(requestId) - PER_MESSAGE
  {
  }

  lemma CommitIsReserved()
    ensures AskOf(AGENT, Asked(Commit, "repo", Low)).Reserved()
  {
    assert AGENT[0] != OWNER[0];
  }

  predicate AsksToCommit(e: Call) {
    && e.op == Evaluate && Authentic(e) && Who(e) == AGENT && Parse(Canon(e)) == Asked(Commit, "repo", Low)
    && e.caps == CAPS && e.now == 0
  }

  lemma FirstAsksToCommit(requestId: Option<string>)
    ensures AsksToCommit(ThreeCalls(requestId)[0])
  {
    CommitmentAsks(requestId);
  }

  lemma CommitFits(e: Call)
    requires AsksToCommit(e)
    ensures ReservedUnder(CONFIG, BUILT, e, AGENT_CAP)
  {
    PolicyServes();
    CommitIsReserved();
    OneCandidate(e, Asked(Commit, "repo", Low));
    ReservedByParts(CONFIG, BUILT, e, AGENT_CAP, AGENT, Asked(Commit, "repo", Low));
  }

  lemma FirstFits(requestId: Option<string>)
    ensures ReservedUnder(CONFIG, BUILT, ThreeCalls(requestId)[0], AGENT_CAP)
  {
    FirstAsksToCommit(requestId);
    CommitFits(ThreeCalls(requestId)[0]);
  }

  lemma ReservedByParts(k: Config, s: State, e: Call, cap: Capability, who: string, p: Parsed)
    requires e.op == Evaluate && Authentic(e) && Who(e) == who && Parse(Canon(e)) == p && p.Asked?
    requires e.newId !in s.escalations && !PolicyBlocks(k, s.policy) && AskOf(who, p).Reserved() && !k.requireContext
    requires EvaluateCapability(k, e, who, p) == Some(cap) && cap.id != "" && cap.principal == who && cap.Active(e.now)
    ensures ReservedUnder(k, s, e, cap)
  {
  }

  lemma SecondFits(requestId: Option<string>)
    ensures OwnersPermit(CONFIG, ThreeCalls(requestId)[1], ESC)
  {
    OwnerHolds();
  }

  predicate AsksAgain(e: Call, r: Call) {
    && r.op == Reenter && Repeats(e, r) && Presents(CONFIG, r, ESC) && e.newId == ESC && e.now == 0 && r.now == 0
    && Who(r) == AGENT && Parse(Canon(r)) == Asked(Commit, "repo", Low) && r.caps == CAPS
    && r.provenance == Matches("id", false) && e.provenance == r.provenance && Recorded(r) && r.append.hash != ""
  }

  lemma ThirdAsksAgain(requestId: Option<string>)
    ensures AsksAgain(ThreeCalls(requestId)[0], ThreeCalls(requestId)[2])
  {
    CommitmentAsks(requestId);
  }

  lemma AgainFits(e: Call, r: Call)
    requires AsksAgain(e, r)
    ensures CoveredAgain(CONFIG, e, r, AGENT_CAP)
  {
    assert Registry.GetCap(CAPS, "cap-1") == Some(AGENT_CAP);
    assert AGENT_CAP.Active(0);
  }

  lemma ThirdFits(requestId: Option<string>)
    ensures CoveredAgain(CONFIG, ThreeCalls(requestId)[0], ThreeCalls(requestId)[2], AGENT_CAP)
  {
    ThirdAsksAgain(requestId);
    AgainFits(ThreeCalls(requestId)[0], ThreeCalls(requestId)[2]);
  }

  /** Three calls in a row that fit together end in a PERMIT. */
  lemma ConsecutiveComplete(k: Config, start: State, calls: seq<Call>, a: nat, b: nat, c: nat, cap: Capability)
    requires Aligned(start) && b == a + 1 && c == b + 1 && c < |calls|
    requires ReservedUnder(k, Before(Mediates(k), start, calls, a), calls[a], cap)
    requires OwnersPermit(k, calls[b], calls[a].newId) && CoveredAgain(k, calls[a], calls[c], cap)
    ensures PermitsOn(DecisionAt(Mediates(k), start, calls, c), calls[a].newId)
  {
    ReservedRequestCompletes(k, start, calls, a, b, c, cap);
  }

  lemma FirstThree(requestId: Option<string>, calls: seq<Call>)
    requires ThreeCalls(requestId) <= calls
    ensures calls[0] == ThreeCalls(requestId)[0] && calls[1] == ThreeCalls(requestId)[1] && calls[2] == ThreeCalls(requestId)[2]
    ensures calls[0].newId == ESC && Authentic(calls[0])
  {
  }

  /** The re-entry is permitted, as it should be: the Owner decided, and nothing changed. */
  lemma ReentryPermitted(requestId: Option<string>, calls: seq<Call>)
    requires ThreeCalls(requestId) <= calls
    ensures PermitsOn(DecisionAt(Mediates(CONFIG), BUILT, calls, 2), ESC)
  {
    FirstThree(requestId, calls);
    FirstFits(requestId);
    SecondFits(requestId);
    ThirdFits(requestId);
    FirstState(Mediates(CONFIG), BUILT, calls);
    ConsecutiveComplete(CONFIG, BUILT, calls, 0, 1, 2, AGENT_CAP);
  }

  lemma FiledByTheFirst(requestId: Option<string>, calls: seq<Call>)
    requires ThreeCalls(requestId) <= calls
    ensures FilesAt(Mediates(CONFIG), BUILT, calls, 0, ESC)
  {
    FirstThree(requestId, calls);
    FirstFits(requestId);
    EscalatedReserved(CONFIG, BUILT, calls[0], AGENT_CAP);
    AfterFiling(CONFIG, BUILT, calls[0]);
    FirstState(Mediates(CONFIG), BUILT, calls);
  }

  lemma FirstState(m: Machine, start: State, calls: seq<Call>)
    requires calls != []
    ensures Before(m, start, calls, 0) == start && Before(m, start, calls, 1) == m(start, calls[0]).0
  {
  }

  /** A PERMIT that nothing undid leaves a standing record for its escalation. */
  lemma StandingRecord(k: Config, start: State, calls: seq<Call>, j: nat, n: nat, id: string) returns (i: nat)
    requires FreshlyBuilt(start) && HashesNotEmpty(calls) && n <= |calls|
    requires Stands(Mediates(k), start, calls, j, n, id)
    ensures var log := Before(Mediates(k), start, calls, n).grants.log;
            log.Some? && Grants.LiveFor(log.value, id, i)
  {
    ConsumedWhileStanding(k, start, calls, n, id);
    RunsStayCoupled(k, start, calls, n);
    i := LiveOfConsumed(Before(Mediates(k), start, calls, n), id);
  }

  lemma LiveOfConsumed(s: State, id: string) returns (i: nat)
    requires Grants.Coupled(s.grants) && ConsumedIn(s, id)
    ensures Grants.LiveFor(s.grants.log.value, id, i)
  {
    Grants.ConsumedExactlyOneLive(s.grants, id);
    i :| Grants.LiveFor(s.grants.log.value, id, i);
  }

  /** A standing PERMIT whose filing call is not answered makes the check complain. */
  lemma ComplaintFollows(k: Config, start: State, calls: seq<Call>, j: nat, x: nat, n: nat, id: string)
    requires FreshlyBuilt(start) && KernelObservations.Observing(start) && HashesNotEmpty(calls) && x < n <= |calls|
    requires Stands(Mediates(k), start, calls, j, n, id) && FilesAt(Mediates(k), start, calls, x, id)
    requires forall y | 0 <= y < n && Authentic(calls[y]) :: Get(Canon(calls[y]), "request_id").Hashable()
    requires Authentic(calls[x]) && !KernelObservations.Answered(k, calls, n, x)
    ensures var s := Before(Mediates(k), start, calls, n);
            var v := Observations.ExecutionVerdict(s.grants.log, s.observations);
            v.Some? && v.value.status == Observations.Violated
  {
    var i := StandingRecord(k, start, calls, j, n, id);
    assert KernelObservations.Unanswered(k, Mediates(k), start, calls, n, i, x);
    KernelObservations.ViolatedExactlyWhen(k, start, calls, n);
  }

  /** Recorded calls undo nothing. */
  lemma StandsWhenRecorded(m: Machine, start: State, calls: seq<Call>, j: nat, n: nat, id: string)
    requires j < n <= |calls| && PermitsOn(DecisionAt(m, start, calls, j), id)
    requires forall x | 0 <= x < n :: Recorded(calls[x])
    ensures Stands(m, start, calls, j, n, id)
  {
  }

  predicate AllRecorded(calls: seq<Call>) {
    forall x | 0 <= x < |calls| :: Recorded(calls[x]) && HashNotEmpty(calls[x])
  }

  predicate UsableIds(calls: seq<Call>, n: nat)
    requires n <= |calls|
  {
    forall x | 0 <= x < n && Authentic(calls[x]) :: Get(Canon(calls[x]), "request_id").Hashable()
  }

  /** Call j returned PERMIT, and the execution check complains after n calls. */
  ghost predicate ReportedAfter(calls: seq<Call>, j: nat, n: nat)
    requires j < n <= |calls|
  {
    var s := Before(Mediates(CONFIG), BUILT, calls, n);
    var v := Observations.ExecutionVerdict(s.grants.log, s.observations);
    && DecisionAt(Mediates(CONFIG), BUILT, calls, j).verdict == Permit
    && v.Some? && v.value.status == Observations.Violated
  }

  lemma Reported(calls: seq<Call>, x: nat, j: nat, n: nat)
    requires x < n && j < n <= |calls| && AllRecorded(calls) && UsableIds(calls, n)
    requires PermitsOn(DecisionAt(Mediates(CONFIG), BUILT, calls, j), ESC) && FilesAt(Mediates(CONFIG), BUILT, calls, x, ESC)
    requires Authentic(calls[x]) && !KernelObservations.Answered(CONFIG, calls, n, x)
    ensures ReportedAfter(calls, j, n)
  {
    StandsWhenRecorded(Mediates(CONFIG), BUILT, calls, j, n, ESC);
    ComplaintFollows(CONFIG, BUILT, calls, j, x, n, ESC);
  }

  lemma UnnamedIsUnanswered()
    ensures var calls := ThreeCalls(None);
            AllRecorded(calls) && UsableIds(calls, 3) && Authentic(calls[0]) && !KernelObservations.Answered(CONFIG, calls, 3, 0)
  {
    var calls := ThreeCalls(None);
    assert forall x | 0 <= x < 3 :: Get(Canon(calls[x]), "request_id") == JNull;
  }

  /** A request without an id: its redemption is recorded under "", which no observed request carries. */
  lemma UnnamedRequestReportsViolation()
    ensures ReportedAfter(ThreeCalls(None), 2, 3)
  {
    UnnamedIsUnanswered();
    ReentryPermitted(None, ThreeCalls(None));
    FiledByTheFirst(None, ThreeCalls(None));
    Reported(ThreeCalls(None), 0, 2, 3);
  }

  lemma SharedIsUnanswered(requestId: string)
    requires requestId != ""
    ensures var calls := FourCalls(requestId);
            AllRecorded(calls) && UsableIds(calls, 4) && Authentic(calls[0]) && !KernelObservations.Answered(CONFIG, calls, 4, 0)
  {
    var calls := FourCalls(requestId);
    assert KernelObservations.Carries(calls[3], requestId);
  }

  /** A request id used by somebody else later: the last observation of it names the other principal. */
  lemma SharedRequestIdReportsViolation(requestId: string)
    requires requestId != ""
    ensures ReportedAfter(FourCalls(requestId), 2, 4)
  {
    SharedIsUnanswered(requestId);
    ReentryPermitted(Some(requestId), FourCalls(requestId));
    FiledByTheFirst(Some(requestId), FourCalls(requestId));
    Reported(FourCalls(requestId), 0, 2, 4);
  }
}
