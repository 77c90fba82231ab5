/** The governance model of the formal directory: states, the five actions, and the invariants I1..I10.

    The constants are arbitrary (possibly infinite) sets and the logs are unbounded; the model
    checker ran only one authority, one entity, two actions and two resources. */
module Governance {

  type Name = string

  datatype Constants = Constants(authority: iset<Name>, entity: iset<Name>, actions: iset<Name>, resources: iset<Name>)
  {
    /** The only assumption on the constants: the two kinds of principal are different, and exist. */
    ghost predicate Disjoint() {
      && authority !! entity
      && (exists a :: a in authority)
      && (exists e :: e in entity)
    }
  }

  datatype Phase = Idle | Attempting | Executed | Denied
  datatype Trust = TrustedBy | Untrusted

  datatype Observation = Observation(entity: Name, action: Name, uid: nat, resource: Name, seqNo: nat)
  datatype Enforcement = Enforcement(action: Name, uid: nat, resource: Name, allowed: bool, seqNo: nat)
  datatype Execution = Execution(entity: Name, action: Name, uid: nat, resource: Name, seqNo: nat)

  /** The six variables that only Bootstrap changes. */
  datatype Policies = Policies(
    auth: imap<Name, iset<Name>>,
    initial: imap<Name, iset<Name>>,
    intent: imap<Name, imap<Name, bool>>,
    resource: imap<Name, iset<Name>>,
    trust: imap<Name, Trust>,
    done: bool)

  /** policies: authPolicy, initPolicy, intent, resourcePolicy, trustStatus, bootstrapDone. */
  datatype State = State(
    policies: Policies,
    entityState: imap<Name, Phase>,
    trustDomain: iset<Name>,
    obsLog: seq<Observation>,
    execLog: seq<Execution>,
    enforceLog: seq<Enforcement>,
    uidCounter: nat,
    globalSeq: nat)

  /** The functions of the specification are total on their constant sets. */
  ghost predicate TypedPolicies(c: Constants, p: Policies) {
    && p.auth.Keys == c.authority
    && p.initial.Keys == c.authority
    && p.resource.Keys == c.authority
    && p.trust.Keys == c.authority
    && p.intent.Keys == c.authority
    && (forall a | a in c.authority :: p.intent[a].Keys == c.actions)
  }

  ghost predicate Typed(c: Constants, s: State) {
    TypedPolicies(c, s.policies) && s.entityState.Keys == c.entity
  }

  ghost predicate AuthResource(p: Policies, x: Name, r: Name, a: Name) {
    a in p.auth && a in p.resource && x in p.auth[a] && r in p.resource[a]
  }

  ghost predicate Trusted(p: Policies, a: Name) {
    a in p.trust && p.trust[a] == TrustedBy
  }

  ghost predicate SemanticallyCorrect(c: Constants, p: Policies, a: Name) {
    && a in p.auth && a in p.intent
    && forall x | x in c.actions :: x in p.intent[a] && (x in p.auth[a] <==> p.intent[a][x])
  }

  predicate IdentityBound(o: Observation, f: Enforcement) {
    o.uid == f.uid && o.action == f.action && o.resource == f.resource
  }

  // ---------------------------------------------------------------- transitions

  ghost predicate Init(c: Constants, s: State) {
    && Typed(c, s)
    && (forall a | a in c.authority ::
          && s.policies.auth[a] == iset{} && s.policies.initial[a] == iset{}
          && s.policies.resource[a] == iset{} && s.policies.trust[a] == TrustedBy)
    && (forall a, x | a in c.authority && x in c.actions :: !s.policies.intent[a][x])
    && (forall e | e in c.entity :: s.entityState[e] == Idle)
    && s.trustDomain == c.authority
    && s.obsLog == [] && s.execLog == [] && s.enforceLog == []
    && !s.policies.done && s.uidCounter == 0 && s.globalSeq == 0
  }

  /** What an authority is bootstrapped with. */
  datatype Charter = Charter(policy: iset<Name>, intent: imap<Name, bool>, resources: iset<Name>, trust: Trust)

  /** The parameters the next-state relation quantifies over. */
  datatype Step =
    | Bootstrap(a: Name, charter: Charter)
    | Attempt(e: Name, x: Name, r: Name)
    | Observe(e: Name, x: Name, uid: nat, r: Name)
    | Enforce(e: Name, x: Name, uid: nat, r: Name, a: Name)
    | ReturnToIdle(e: Name)

  ghost predicate CharterOk(c: Constants, ch: Charter) {
    && ch.policy <= c.actions && ch.resources <= c.resources && ch.intent.Keys == c.actions
    && forall x | x in c.actions :: x in ch.policy <==> ch.intent[x]
  }

  ghost predicate InPhase(s: State, e: Name, phases: set<Phase>) {
    e in s.entityState && s.entityState[e] in phases
  }

  ghost predicate Request(c: Constants, e: Name, x: Name, r: Name) {
    e in c.entity && x in c.actions && r in c.resources
  }

  ghost predicate Observed(s: State, e: Name, x: Name, uid: nat, r: Name) {
    exists o :: o in s.obsLog && o.uid == uid && o.entity == e && o.action == x && o.resource == r
  }

  ghost predicate Enabled(c: Constants, s: State, step: Step) {
    match step
    case Bootstrap(a, charter) => !s.policies.done && a in c.authority && CharterOk(c, charter)
    case Attempt(e, x, r) => Request(c, e, x, r) && InPhase(s, e, {Idle})
    case Observe(e, x, uid, r) => Request(c, e, x, r) && uid <= s.uidCounter && InPhase(s, e, {Attempting})
    case Enforce(e, x, uid, r, a) =>
      && Request(c, e, x, r) && a in c.authority && uid <= s.uidCounter && InPhase(s, e, {Attempting})
      && s.policies.done && Trusted(s.policies, a) && Observed(s, e, x, uid, r)
    case ReturnToIdle(e) => e in c.entity && InPhase(s, e, {Executed, Denied})
  }

  ghost function Bootstrapped(p: Policies, a: Name, ch: Charter): Policies {
    Policies(p.auth[a := ch.policy], p.initial[a := ch.policy], p.intent[a := ch.intent],
             p.resource[a := ch.resources], p.trust[a := ch.trust], true)
  }

  ghost function Enforced(s: State, e: Name, x: Name, uid: nat, r: Name, a: Name): State {
    if AuthResource(s.policies, x, r, a) then
      s.(enforceLog := s.enforceLog + [Enforcement(x, uid, r, true, s.globalSeq + 1)],
         execLog := s.execLog + [Execution(e, x, uid, r, s.globalSeq + 2)],
         entityState := s.entityState[e := Executed],
         globalSeq := s.globalSeq + 2)
    else
      s.(enforceLog := s.enforceLog + [Enforcement(x, uid, r, false, s.globalSeq + 1)],
         entityState := s.entityState[e := Denied],
         globalSeq := s.globalSeq + 1)
  }

  /** The successor state; enforcement and execution get different sequence numbers. */
  ghost function After(s: State, step: Step): State {
    match step
    case Bootstrap(a, charter) =>
      s.(policies := Bootstrapped(s.policies, a, charter))
    case Attempt(e, _, _) =>
      s.(entityState := s.entityState[e := Attempting], uidCounter := s.uidCounter + 1)
    case Observe(e, x, uid, r) =>
      s.(obsLog := s.obsLog + [Observation(e, x, uid, r, s.globalSeq)], globalSeq := s.globalSeq + 1)
    case Enforce(e, x, uid, r, a) =>
      Enforced(s, e, x, uid, r, a)
    case ReturnToIdle(e) =>
      s.(entityState := s.entityState[e := Idle])
  }

  ghost predicate Next(c: Constants, s: State, s': State) {
    exists step :: Enabled(c, s, step) && s' == After(s, step)
  }

  ghost predicate Behaviour(c: Constants, t: seq<State>) {
    && t != []
    && Init(c, t[0])
    && forall k :: 0 < k < |t| ==> Next(c, t[k - 1], t[k])
  }

  // ---------------------------------------------------------------- I1..I10

  ghost predicate I1Observability(s: State) {
    forall f | f in s.enforceLog :: exists o :: o in s.obsLog && IdentityBound(o, f)
  }

  ghost predicate I2Deniability(c: Constants, s: State) {
    forall x | x in s.execLog :: exists a :: a in c.authority && AuthResource(s.policies, x.action, x.resource, a)
  }

  ghost predicate I3Immutability(c: Constants, s: State) {
    s.policies.done ==>
      forall a | a in c.authority :: a in s.policies.auth && a in s.policies.initial && s.policies.auth[a] == s.policies.initial[a]
  }

  ghost predicate I4TemporalOrdering(s: State) {
    forall f | f in s.enforceLog :: exists o :: o in s.obsLog && IdentityBound(o, f) && o.seqNo < f.seqNo
  }

  ghost predicate I5Completeness(s: State) {
    forall x | x in s.execLog ::
      exists o :: o in s.obsLog && o.uid == x.uid && o.entity == x.entity && o.action == x.action && o.resource == x.resource
  }

  ghost predicate I7ExternalAuthority(c: Constants) {
    forall e, a | e in c.entity && a in c.authority :: a != e
  }

  ghost predicate I8SemanticCorrectness(c: Constants, s: State) {
    s.policies.done ==> forall a | a in c.authority :: SemanticallyCorrect(c, s.policies, a)
  }

  ghost predicate I9TrustVerification(c: Constants, s: State) {
    s.enforceLog != [] ==> exists a :: a in c.authority && Trusted(s.policies, a)
  }

  ghost predicate I10EnforcementBeforeExecution(s: State) {
    forall x | x in s.execLog :: exists f :: f in s.enforceLog && f.uid == x.uid && f.allowed && f.seqNo < x.seqNo
  }

  ghost predicate NoUnauthorizedExecution(c: Constants, s: State) {
    forall x | x in s.execLog :: exists a :: a in c.authority && AuthResource(s.policies, x.action, x.resource, a) && Trusted(s.policies, a)
  }

  ghost predicate ObservationBeforeExecution(s: State) {
    forall x | x in s.execLog :: exists o :: o in s.obsLog && o.uid == x.uid && o.seqNo < x.seqNo
  }

  /** I6 is word for word I1 in the specification. */
  ghost predicate SecurityBoundary(c: Constants, s: State) {
    && I1Observability(s) && I2Deniability(c, s) && I3Immutability(c, s) && I4TemporalOrdering(s) && I5Completeness(s)
    && I7ExternalAuthority(c) && I8SemanticCorrectness(c, s) && I9TrustVerification(c, s) && I10EnforcementBeforeExecution(s)
  }

  // ---------------------------------------------------------------- the inductive invariant

  /** What justifies an enforcement: one earlier, identity-matching observation and a trusted authority,
      which also authorises the resource when the decision was to allow. */
  ghost predicate Justified(c: Constants, s: State, f: Enforcement) {
    && (exists o :: o in s.obsLog && IdentityBound(o, f) && o.seqNo < f.seqNo)
    && (exists a :: a in c.authority && Trusted(s.policies, a) && (f.allowed ==> AuthResource(s.policies, f.action, f.resource, a)))
  }

  /** What justifies an execution: the chain observation < allowed enforcement < execution, all about the
      same uid, action and resource, and the observation about the same entity. */
  ghost predicate Chained(s: State, x: Execution, o: Observation, f: Enforcement) {
    && o in s.obsLog && f in s.enforceLog
    && IdentityBound(o, f) && o.entity == x.entity
    && f.uid == x.uid && f.action == x.action && f.resource == x.resource && f.allowed
    && o.seqNo < f.seqNo < x.seqNo
  }

  ghost predicate ExecutionsChained(s: State) {
    forall x | x in s.execLog :: exists o, f :: Chained(s, x, o, f)
  }

  predicate IncreasingObs(log: seq<Observation>, bound: int) {
    && (forall i, j :: 0 <= i < j < |log| ==> log[i].seqNo < log[j].seqNo)
    && (forall i :: 0 <= i < |log| ==> log[i].seqNo < bound)
  }

  predicate IncreasingEnf(log: seq<Enforcement>, bound: int) {
    && (forall i, j :: 0 <= i < j < |log| ==> log[i].seqNo < log[j].seqNo)
    && (forall i :: 0 <= i < |log| ==> log[i].seqNo <= bound)
  }

  predicate IncreasingExec(log: seq<Execution>, bound: int) {
    && (forall i, j :: 0 <= i < j < |log| ==> log[i].seqNo < log[j].seqNo)
    && (forall i :: 0 <= i < |log| ==> log[i].seqNo <= bound)
  }

  /** Each log is strictly ordered by sequence number, and none runs ahead of the global counter. */
  ghost predicate LogsOrdered(s: State) {
    IncreasingObs(s.obsLog, s.globalSeq) && IncreasingEnf(s.enforceLog, s.globalSeq) && IncreasingExec(s.execLog, s.globalSeq)
  }

  ghost predicate PolicyIsInitial(c: Constants, p: Policies) {
    forall a | a in c.authority :: a in p.auth && a in p.initial && p.auth[a] == p.initial[a]
  }

  ghost predicate AllCorrect(c: Constants, p: Policies) {
    forall a | a in c.authority :: SemanticallyCorrect(c, p, a)
  }

  ghost predicate PoliciesInv(c: Constants, p: Policies) {
    TypedPolicies(c, p) && PolicyIsInitial(c, p) && AllCorrect(c, p)
  }

  ghost predicate AllJustified(c: Constants, s: State) {
    forall f | f in s.enforceLog :: Justified(c, s, f)
  }

  ghost predicate Inv(c: Constants, s: State) {
    && PoliciesInv(c, s.policies)
    && s.entityState.Keys == c.entity
    && (!s.policies.done ==> s.enforceLog == [] && s.execLog == [])
    && AllJustified(c, s)
    && ExecutionsChained(s)
    && LogsOrdered(s)
  }

  lemma InitEstablishes(c: Constants, s: State)
    requires Init(c, s)
    ensures Inv(c, s)
  {
  }

  lemma UpdateInDomain<V>(m: imap<Name, V>, k: Name, v: V)
    requires k in m
    ensures m[k := v].Keys == m.Keys
  {
  }

  lemma BootstrapKeepsTyping(c: Constants, p: Policies, a: Name, ch: Charter)
    requires TypedPolicies(c, p) && a in c.authority && ch.intent.Keys == c.actions
    ensures TypedPolicies(c, Bootstrapped(p, a, ch))
  {
    UpdateInDomain(p.auth, a, ch.policy);
    UpdateInDomain(p.initial, a, ch.policy);
    UpdateInDomain(p.resource, a, ch.resources);
    UpdateInDomain(p.trust, a, ch.trust);
    UpdateInDomain(p.intent, a, ch.intent);
  }

  /** Intent and policy still agree for every authority: the chartered one, and the untouched ones. */
  lemma BootstrapKeepsMeaning(c: Constants, p: Policies, a: Name, ch: Charter)
    requires AllCorrect(c, p) && CharterOk(c, ch)
    ensures AllCorrect(c, Bootstrapped(p, a, ch))
  {
    forall b | b in c.authority ensures SemanticallyCorrect(c, Bootstrapped(p, a, ch), b) {
      assert SemanticallyCorrect(c, p, b);
    }
  }

  lemma BootstrapKeepsInitial(c: Constants, p: Policies, a: Name, ch: Charter)
    requires PolicyIsInitial(c, p)
    ensures PolicyIsInitial(c, Bootstrapped(p, a, ch))
  {
  }

  lemma BootstrapKeeps(c: Constants, p: Policies, a: Name, ch: Charter)
    requires PoliciesInv(c, p) && a in c.authority && CharterOk(c, ch)
    ensures PoliciesInv(c, Bootstrapped(p, a, ch))
  {
    BootstrapKeepsTyping(c, p, a, ch);
    BootstrapKeepsInitial(c, p, a, ch);
    BootstrapKeepsMeaning(c, p, a, ch);
  }

  /** What justified a record keeps justifying it when logs grow and policies stay. */
  lemma JustificationPersists(c: Constants, s: State, s': State, f: Enforcement)
    requires Justified(c, s, f) && s'.policies == s.policies && s.obsLog <= s'.obsLog
    ensures Justified(c, s', f)
  {
    var o :| o in s.obsLog && IdentityBound(o, f) && o.seqNo < f.seqNo;
    assert o in s'.obsLog;
  }

  lemma JustificationsPersist(c: Constants, s: State, s': State)
    requires AllJustified(c, s)
    requires s'.policies == s.policies && s.obsLog <= s'.obsLog
    ensures s'.enforceLog == s.enforceLog ==> AllJustified(c, s')
    ensures |s'.enforceLog| == |s.enforceLog| + 1 && s.enforceLog <= s'.enforceLog && Justified(c, s', s'.enforceLog[|s.enforceLog|])
            ==> AllJustified(c, s')
  {
    forall f | f in s.enforceLog ensures Justified(c, s', f) {
      JustificationPersists(c, s, s', f);
    }
    if s'.enforceLog == s.enforceLog {
    } else if |s'.enforceLog| == |s.enforceLog| + 1 && s.enforceLog <= s'.enforceLog {
      var n := s'.enforceLog[|s.enforceLog|];
      forall f | f in s'.enforceLog && f != n ensures Justified(c, s', f) {
        assert f in s.enforceLog;
      }
    }
  }

  lemma ChainsPersist(s: State, s': State, x: Execution)
    requires exists o, f :: Chained(s, x, o, f)
    requires s.obsLog <= s'.obsLog && s.enforceLog <= s'.enforceLog
    ensures exists o, f :: Chained(s', x, o, f)
  {
    var o, f :| Chained(s, x, o, f);
    assert Chained(s', x, o, f);
  }

  lemma AllChainsPersist(s: State, s': State)
    requires ExecutionsChained(s) && s'.execLog == s.execLog
    requires s.obsLog <= s'.obsLog && s.enforceLog <= s'.enforceLog
    ensures ExecutionsChained(s')
  {
    forall x | x in s'.execLog ensures exists o, f :: Chained(s', x, o, f) {
      ChainsPersist(s, s', x);
    }
  }

  /** The enforcement a step adds is justified by the observation the guard demanded. */
  lemma NewEnforcementJustified(c: Constants, s: State, e: Name, x: Name, uid: nat, r: Name, a: Name)
    requires LogsOrdered(s) && a in c.authority && Trusted(s.policies, a) && Observed(s, e, x, uid, r)
    ensures var s' := Enforced(s, e, x, uid, r, a); Justified(c, s', s'.enforceLog[|s.enforceLog|])
  {
    var s' := Enforced(s, e, x, uid, r, a);
    var o :| o in s.obsLog && o.uid == uid && o.entity == e && o.action == x && o.resource == r;
    var f := s'.enforceLog[|s.enforceLog|];
    assert o in s'.obsLog && IdentityBound(o, f) && o.seqNo < f.seqNo;
  }

  /** The execution that comes with an allowed enforcement is chained to it and to that observation. */
  lemma NewExecutionChained(s: State, e: Name, x: Name, uid: nat, r: Name, a: Name)
    requires LogsOrdered(s) && Observed(s, e, x, uid, r) && ExecutionsChained(s)
    ensures ExecutionsChained(Enforced(s, e, x, uid, r, a))
  {
    var s' := Enforced(s, e, x, uid, r, a);
    var o :| o in s.obsLog && o.uid == uid && o.entity == e && o.action == x && o.resource == r;
    var f := s'.enforceLog[|s.enforceLog|];
    forall y | y in s'.execLog ensures exists o, f :: Chained(s', y, o, f) {
      if y in s.execLog {
        ChainsPersist(s, s', y);
      } else {
        assert Chained(s', y, o, f);
      }
    }
  }

  lemma EnforceKeepsOrder(s: State, e: Name, x: Name, uid: nat, r: Name, a: Name)
    requires LogsOrdered(s)
    ensures LogsOrdered(Enforced(s, e, x, uid, r, a))
  {
  }

  lemma EnforceKeeps(c: Constants, s: State, e: Name, x: Name, uid: nat, r: Name, a: Name)
    requires Inv(c, s) && s.policies.done && e in c.entity && a in c.authority
    requires Trusted(s.policies, a) && Observed(s, e, x, uid, r)
    ensures Inv(c, Enforced(s, e, x, uid, r, a))
  {
    var s' := Enforced(s, e, x, uid, r, a);
    NewEnforcementJustified(c, s, e, x, uid, r, a);
    JustificationsPersist(c, s, s');
    NewExecutionChained(s, e, x, uid, r, a);
    EnforceKeepsOrder(s, e, x, uid, r, a);
    UpdateInDomain(s.entityState, e, s'.entityState[e]);
  }

  lemma ObserveKeeps(c: Constants, s: State, e: Name, x: Name, uid: nat, r: Name)
    requires Inv(c, s)
    ensures Inv(c, After(s, Observe(e, x, uid, r)))
  {
    var s' := After(s, Observe(e, x, uid, r));
    JustificationsPersist(c, s, s');
    AllChainsPersist(s, s');
    ObserveKeepsOrder(s, e, x, uid, r);
  }

  lemma ObserveKeepsOrder(s: State, e: Name, x: Name, uid: nat, r: Name)
    requires LogsOrdered(s)
    ensures LogsOrdered(After(s, Observe(e, x, uid, r)))
  {
  }

  /** Moving an entity between phases touches nothing the invariant speaks of. */
  lemma MoveKeeps(c: Constants, s: State, s': State, e: Name, phase: Phase)
    requires Inv(c, s) && e in s.entityState
    requires s' == s.(entityState := s.entityState[e := phase], uidCounter := s'.uidCounter)
    ensures Inv(c, s')
  {
    JustificationsPersist(c, s, s');
    AllChainsPersist(s, s');
    UpdateInDomain(s.entityState, e, phase);
  }

  lemma StepKeeps(c: Constants, s: State, step: Step)
    requires Inv(c, s) && Enabled(c, s, step)
    ensures Inv(c, After(s, step))
  {
    match step
    case Bootstrap(a, charter) => BootstrapKeeps(c, s.policies, a, charter);
    case Attempt(e, _, _) => MoveKeeps(c, s, After(s, step), e, Attempting);
    case Observe(e, x, uid, r) => ObserveKeeps(c, s, e, x, uid, r);
    case Enforce(e, x, uid, r, a) => EnforceKeeps(c, s, e, x, uid, r, a);
    case ReturnToIdle(e) => MoveKeeps(c, s, After(s, step), e, Idle);
  }

  lemma {:induction false} BehaviourKeeps(c: Constants, t: seq<State>, k: nat)
    requires Behaviour(c, t) && k < |t|
    ensures Inv(c, t[k])
  {
    if k == 0 {
      InitEstablishes(c, t[0]);
    } else {
      BehaviourKeeps(c, t, k - 1);
      assert Next(c, t[k - 1], t[k]);
      var step :| Enabled(c, t[k - 1], step) && t[k] == After(t[k - 1], step);
      StepKeeps(c, t[k - 1], step);
    }
  }

  // ---------------------------------------------------------------- main results

  lemma InvImpliesBoundary(c: Constants, s: State)
    requires c.Disjoint() && Inv(c, s)
    ensures SecurityBoundary(c, s) && NoUnauthorizedExecution(c, s) && ObservationBeforeExecution(s)
  {
    forall x | x in s.execLog
      ensures exists a :: a in c.authority && AuthResource(s.policies, x.action, x.resource, a) && Trusted(s.policies, a)
      ensures exists f :: f in s.enforceLog && f.uid == x.uid && f.allowed && f.seqNo < x.seqNo
      ensures exists o :: o in s.obsLog && o.uid == x.uid && o.entity == x.entity && o.action == x.action
                          && o.resource == x.resource && o.seqNo < x.seqNo
    {
      var o, f :| Chained(s, x, o, f);
      assert Justified(c, s, f);
    }
    if s.enforceLog != [] {
      assert Justified(c, s, s.enforceLog[0]);
    }
  }

  /** I1..I10 and the derived safety properties hold in every state of every behaviour, whatever the constants. */
  lemma BoundaryHoldsAlways(c: Constants, t: seq<State>, k: nat)
    requires c.Disjoint() && Behaviour(c, t) && k < |t|
    ensures SecurityBoundary(c, t[k]) && NoUnauthorizedExecution(c, t[k]) && ObservationBeforeExecution(t[k])
  {
    BehaviourKeeps(c, t, k);
    InvImpliesBoundary(c, t[k]);
  }

  /** Stronger than I4, I5 and I10 together: one observation and one allowed enforcement about the very same
      request precede each execution, in that strict order; and each log is strictly ordered. */
  lemma ExecutionsFollowTheChain(c: Constants, t: seq<State>, k: nat)
    requires Behaviour(c, t) && k < |t|
    ensures ExecutionsChained(t[k]) && LogsOrdered(t[k])
  {
    BehaviourKeeps(c, t, k);
  }

  ghost predicate Grew(s: State, s': State) {
    && s.obsLog <= s'.obsLog && s.enforceLog <= s'.enforceLog && s.execLog <= s'.execLog
    && (s.policies.done ==> s'.policies == s.policies)
  }

  lemma StepGrows(c: Constants, s: State, s': State)
    requires Next(c, s, s')
    ensures Grew(s, s')
  {
  }

  lemma GrewTransitive(a: State, b: State, c: State)
    requires Grew(a, b) && Grew(b, c)
    ensures Grew(a, c)
  {
  }

  /** Logs only grow along a behaviour, and after bootstrap no policy, intent or trust status changes again. */
  lemma {:induction false} LogsGrowPoliciesFreeze(c: Constants, t: seq<State>, j: nat, k: nat)
    requires Behaviour(c, t) && j <= k < |t|
    ensures Grew(t[j], t[k])
    decreases k
  {
    if j < k {
      LogsGrowPoliciesFreeze(c, t, j, k - 1);
      StepGrows(c, t[k - 1], t[k]);
      GrewTransitive(t[j], t[k - 1], t[k]);
    }
  }

  /** Extending a behaviour by one enabled step. */
  lemma Extend(c: Constants, t: seq<State>, step: Step) returns (t': seq<State>)
    requires Behaviour(c, t) && Enabled(c, t[|t| - 1], step)
    ensures Behaviour(c, t') && t' == t + [After(t[|t| - 1], step)]
  {
    t' := t + [After(t[|t| - 1], step)];
    assert Next(c, t[|t| - 1], t'[|t|]);
    forall k | 0 < k < |t'| ensures Next(c, t'[k - 1], t'[k]) {
      if k < |t| {
        assert t'[k - 1] == t[k - 1] && t'[k] == t[k];
      }
    }
  }

  /** Attempt, observe, and be decided on, from fresh logs. */
  lemma DecidedOnce(c: Constants, s: State, e: Name, a: Name, x: Name, r: Name)
    returns (attempt: Step, observe: Step, enforce: Step)
    requires Request(c, e, x, r) && a in c.authority && Fresh(s, e, a)
    ensures Enabled(c, s, attempt) && Enabled(c, After(s, attempt), observe)
    ensures Enabled(c, After(After(s, attempt), observe), enforce)
    ensures var last, allowed := After(After(After(s, attempt), observe), enforce), AuthResource(s.policies, x, r, a);
            && last.globalSeq == (if allowed then 3 else 2) && |last.obsLog| == 1
            && last.enforceLog == [Enforcement(x, 1, r, allowed, 2)]
            && last.execLog == (if allowed then [Execution(e, x, 1, r, 3)] else [])
            && InPhase(last, e, {if allowed then Executed else Denied})
  {
    attempt, observe, enforce := Attempt(e, x, r), Observe(e, x, 1, r), Enforce(e, x, 1, r, a);
    var s2 := After(After(s, attempt), observe);
    assert s2.obsLog[0] in s2.obsLog;
    assert Observed(s2, e, x, 1, r);
  }

  /** Bootstrapped with a trusted authority, and nothing else has happened. */
  ghost predicate Fresh(s: State, e: Name, a: Name) {
    && InPhase(s, e, {Idle}) && s.policies.done && Trusted(s.policies, a)
    && s.globalSeq == 0 && s.uidCounter == 0 && s.obsLog == [] && s.enforceLog == [] && s.execLog == []
  }

  /** The second half: the next observation reuses the current counter value. */
  lemma ObservedAgain(c: Constants, s: State, e: Name, x: Name, r: Name) returns (back: Step, attempt: Step, observe: Step)
    requires Request(c, e, x, r) && InPhase(s, e, {Denied})
    ensures Enabled(c, s, back) && Enabled(c, After(s, back), attempt)
    ensures Enabled(c, After(After(s, back), attempt), observe)
    ensures var last := After(After(After(s, back), attempt), observe);
            last.enforceLog == s.enforceLog && |last.obsLog| == |s.obsLog| + 1 && last.obsLog[|s.obsLog|].seqNo == s.globalSeq
  {
    back, attempt, observe := ReturnToIdle(e), Attempt(e, x, r), Observe(e, x, 0, r);
  }

  lemma ExtendThrice(c: Constants, t: seq<State>, a: Step, b: Step, d: Step) returns (t': seq<State>)
    requires Behaviour(c, t)
    requires var s := t[|t| - 1];
             Enabled(c, s, a) && Enabled(c, After(s, a), b) && Enabled(c, After(After(s, a), b), d)
    ensures Behaviour(c, t') && t'[|t'| - 1] == After(After(After(t[|t| - 1], a), b), d)
  {
    t' := Extend(c, t, a);
    t' := Extend(c, t', b);
    t' := Extend(c, t', d);
  }

  lemma Bootstrappable(c: Constants, s0: State, e: Name, a: Name, charter: Charter, x: Name, r: Name) returns (t: seq<State>)
    requires Init(c, s0) && e in c.entity && a in c.authority && CharterOk(c, charter) && charter.trust == TrustedBy
    ensures Behaviour(c, t) && Fresh(t[|t| - 1], e, a)
    ensures AuthResource(t[|t| - 1].policies, x, r, a) <==> x in charter.policy && r in charter.resources
  {
    t := Extend(c, [s0], Bootstrap(a, charter));
    CharteredMeans(c, s0.policies, a, charter, x, r);
  }

  lemma CharteredMeans(c: Constants, p: Policies, a: Name, charter: Charter, x: Name, r: Name)
    requires TypedPolicies(c, p) && a in c.authority
    ensures var p' := Bootstrapped(p, a, charter);
            && (AuthResource(p', x, r, a) <==> x in charter.policy && r in charter.resources)
            && (Trusted(p', a) <==> charter.trust == TrustedBy)
  {
  }

  /** A behaviour goes on, from fresh logs, to the first decision. */
  lemma FirstDecision(c: Constants, t: seq<State>, e: Name, a: Name, x: Name, r: Name, allowed: bool) returns (t': seq<State>)
    requires Behaviour(c, t) && Request(c, e, x, r) && a in c.authority && Fresh(t[|t| - 1], e, a)
    requires allowed == AuthResource(t[|t| - 1].policies, x, r, a)
    ensures Behaviour(c, t')
    ensures var last := t'[|t'| - 1];
            && last.globalSeq == (if allowed then 3 else 2) && |last.obsLog| == 1
            && last.enforceLog == [Enforcement(x, 1, r, allowed, 2)]
            && last.execLog == (if allowed then [Execution(e, x, 1, r, 3)] else [])
            && InPhase(last, e, {if allowed then Executed else Denied})
  {
    var attempt, observe, enforce := DecidedOnce(c, t[|t| - 1], e, a, x, r);
    t' := ExtendThrice(c, t, attempt, observe, enforce);
  }

  /** A behaviour goes on, from a refusal, to the next observation. */
  lemma NextObservation(c: Constants, t: seq<State>, e: Name, x: Name, r: Name) returns (t': seq<State>)
    requires Behaviour(c, t) && Request(c, e, x, r) && InPhase(t[|t| - 1], e, {Denied})
    ensures Behaviour(c, t')
    ensures var s, last := t[|t| - 1], t'[|t'| - 1];
            last.enforceLog == s.enforceLog && |last.obsLog| == |s.obsLog| + 1 && last.obsLog[|s.obsLog|].seqNo == s.globalSeq
  {
    var back, again, seen := ObservedAgain(c, t[|t| - 1], e, x, r);
    t' := ExtendThrice(c, t, back, again, seen);
  }

  /** The charter that allows nothing. */
  ghost function Nothing(c: Constants): Charter {
    Charter(iset{}, imap y | y in c.actions :: false, iset{}, TrustedBy)
  }

  lemma NothingIsOk(c: Constants, x: Name)
    ensures CharterOk(c, Nothing(c)) && Nothing(c).trust == TrustedBy && x !in Nothing(c).policy
  {
  }

  lemma RefusedBehaviour(c: Constants, s0: State, e: Name, a: Name, x: Name, r: Name) returns (t: seq<State>)
    requires Init(c, s0) && Request(c, e, x, r) && a in c.authority
    ensures Behaviour(c, t)
    ensures var last := t[|t| - 1];
            |last.obsLog| == 1 && last.enforceLog == [Enforcement(x, 1, r, false, 2)] && last.globalSeq == 2 && InPhase(last, e, {Denied})
  {
    NothingIsOk(c, x);
    var began := Bootstrappable(c, s0, e, a, Nothing(c), x, r);
    t := FirstDecision(c, began, e, a, x, r, false);
  }

  /** The sequence numbers do not order events ACROSS logs: an observation taken right after a refused
      enforcement carries the enforcement's own number. Reachable for every choice of constants. */
  lemma SequenceNumbersCollide(c: Constants, s0: State, e: Name, a: Name, x: Name, r: Name) returns (t: seq<State>)
    requires Init(c, s0) && Request(c, e, x, r) && a in c.authority
    ensures Behaviour(c, t)
    ensures var last := t[|t| - 1];
            |last.enforceLog| == 1 && |last.obsLog| == 2 && last.obsLog[1].seqNo == last.enforceLog[0].seqNo
  {
    var refused := RefusedBehaviour(c, s0, e, a, x, r);
    t := NextObservation(c, refused, e, x, r);
  }

  // ---------------------------------------------------------------- what enforcement decides

  /** Enforcement allows exactly what the authority's policy and its resources both contain; then, and only then, the
      request is executed. It leaves observations, policies and every other entity alone. */
  lemma EnforcementDecides(c: Constants, s: State, e: Name, x: Name, uid: nat, r: Name, a: Name)
    requires Typed(c, s) && Enabled(c, s, Enforce(e, x, uid, r, a))
    ensures var t, allowed := After(s, Enforce(e, x, uid, r, a)), x in s.policies.auth[a] && r in s.policies.resource[a];
            && t.enforceLog == s.enforceLog + [Enforcement(x, uid, r, allowed, s.globalSeq + 1)]
            && t.execLog == s.execLog + (if allowed then [Execution(e, x, uid, r, s.globalSeq + 2)] else [])
            && t.entityState == s.entityState[e := if allowed then Executed else Denied]
            && t.obsLog == s.obsLog && t.policies == s.policies
  {
  }

  /** The charter that allows one action on one resource. */
  ghost function Allowing(c: Constants, x: Name, r: Name): Charter {
    Charter(iset{x}, imap y | y in c.actions :: y == x, iset{r}, TrustedBy)
  }

  lemma AllowingIsOk(c: Constants, x: Name, r: Name)
    requires x in c.actions && r in c.resources
    ensures CharterOk(c, Allowing(c, x, r))
  {
  }

  /** The boundary is no empty promise: whatever the constants, a request that the charter allows is executed in some
      behaviour, and is the only one. */
  lemma AllowedRequestExecutes(c: Constants, s0: State, e: Name, a: Name, x: Name, r: Name) returns (t: seq<State>)
    requires Init(c, s0) && Request(c, e, x, r) && a in c.authority
    ensures Behaviour(c, t)
    ensures t[|t| - 1].execLog == [Execution(e, x, 1, r, 3)] && t[|t| - 1].enforceLog == [Enforcement(x, 1, r, true, 2)]
    ensures InPhase(t[|t| - 1], e, {Executed})
  {
    AllowingIsOk(c, x, r);
    var began := Bootstrappable(c, s0, e, a, Allowing(c, x, r), x, r);
    t := FirstDecision(c, began, e, a, x, r, true);
  }

  // ---------------------------------------------------------------- when the numbers of the three logs are distinct

  function ObservationNumbers(log: seq<Observation>): (r: seq<nat>)
    ensures |r| == |log| && forall i | 0 <= i < |log| :: r[i] == log[i].seqNo
  {
    seq(|log|, i requires 0 <= i < |log| => log[i].seqNo)
  }

  function EnforcementNumbers(log: seq<Enforcement>): (r: seq<nat>)
    ensures |r| == |log| && forall i | 0 <= i < |log| :: r[i] == log[i].seqNo
  {
    seq(|log|, i requires 0 <= i < |log| => log[i].seqNo)
  }

  function ExecutionNumbers(log: seq<Execution>): (r: seq<nat>)
    ensures |r| == |log| && forall i | 0 <= i < |log| :: r[i] == log[i].seqNo
  {
    seq(|log|, i requires 0 <= i < |log| => log[i].seqNo)
  }

  /** Every number handed out so far, log by log. */
  function Numbers(s: State): seq<nat> {
    ObservationNumbers(s.obsLog) + EnforcementNumbers(s.enforceLog) + ExecutionNumbers(s.execLog)
  }

  predicate NoRepetition(ns: seq<nat>) {
    forall i, j | 0 <= i < j < |ns| :: ns[i] != ns[j]
  }

  /** Observation, enforcement and execution numbers are pairwise distinct, within and across the logs. */
  ghost predicate Distinct(s: State) {
    NoRepetition(Numbers(s))
  }

  /** Where position i of a list goes when a number is put in at position k. */
  function Moved(i: nat, k: nat): nat {
    if i < k then i else i + 1
  }

  lemma Shifted(a: seq<nat>, b: seq<nat>, n: nat, i: nat)
    requires i < |a + b|
    ensures (a + [n] + b)[Moved(i, |a|)] == (a + b)[i]
  {
  }

  lemma TakeOneOut(a: seq<nat>, b: seq<nat>, n: nat)
    requires NoRepetition(a + [n] + b)
    ensures NoRepetition(a + b) && n !in a + b
  {
    var all, rest := a + [n] + b, a + b;
    forall i, j | 0 <= i < j < |rest| ensures rest[i] != rest[j] {
      Shifted(a, b, n, i);
      Shifted(a, b, n, j);
      assert all[Moved(i, |a|)] != all[Moved(j, |a|)];
    }
    forall i | 0 <= i < |rest| ensures rest[i] != n {
      Shifted(a, b, n, i);
      assert all[|a|] == n && all[Moved(i, |a|)] == rest[i];
    }
  }

  lemma PutOneIn(a: seq<nat>, b: seq<nat>, n: nat)
    requires NoRepetition(a + b) && n !in a + b
    ensures NoRepetition(a + [n] + b)
  {
    var all, rest := a + [n] + b, a + b;
    forall i, j | 0 <= i < j < |all| ensures all[i] != all[j] {
      if i != |a| { Shifted(a, b, n, if i < |a| then i else i - 1); }
      if j != |a| { Shifted(a, b, n, if j < |a| then j else j - 1); }
      assert all[|a|] == n;
    }
  }

  /** One more number in the middle of a list. */
  lemma OneNumberMore(a: seq<nat>, b: seq<nat>, n: nat)
    ensures NoRepetition(a + [n] + b) <==> NoRepetition(a + b) && n !in a + b
  {
    if NoRepetition(a + [n] + b) {
      TakeOneOut(a, b, n);
    } else if NoRepetition(a + b) && n !in a + b {
      PutOneIn(a, b, n);
    }
  }

  /** No number handed out is above the counter. */
  lemma NumbersBounded(s: State)
    requires LogsOrdered(s)
    ensures forall n | n in Numbers(s) :: n <= s.globalSeq
  {
  }

  lemma ObserveNumbers(s: State, e: Name, x: Name, uid: nat, r: Name)
    requires LogsOrdered(s)
    ensures var s' := After(s, Observe(e, x, uid, r));
            && (Distinct(s') <==> Distinct(s) && s.globalSeq !in Numbers(s))
            && s'.globalSeq !in Numbers(s')
  {
    var s' := After(s, Observe(e, x, uid, r));
    var rest := EnforcementNumbers(s.enforceLog) + ExecutionNumbers(s.execLog);
    var own := ObservationNumbers(s.obsLog);
    assert ObservationNumbers(s'.obsLog) == own + [s.globalSeq];
    assert Numbers(s) == own + rest && Numbers(s') == own + [s.globalSeq] + rest;
    OneNumberMore(own, rest, s.globalSeq);
    NumbersBounded(s);
  }

  lemma EnforceNumbers(s: State, e: Name, x: Name, uid: nat, r: Name, a: Name)
    requires LogsOrdered(s)
    ensures var s' := Enforced(s, e, x, uid, r, a);
            (Distinct(s') <==> Distinct(s)) && s'.globalSeq in Numbers(s')
  {
    var s' := Enforced(s, e, x, uid, r, a);
    var own, mid, last := ObservationNumbers(s.obsLog), EnforcementNumbers(s.enforceLog), ExecutionNumbers(s.execLog);
    var n := s.globalSeq + 1;
    NumbersBounded(s);
    assert EnforcementNumbers(s'.enforceLog) == mid + [n];
    assert own + (mid + [n]) + last == (own + mid) + [n] + last;
    OneNumberMore(own + mid, last, n);
    if AuthResource(s.policies, x, r, a) {
      var before := own + (mid + [n]) + last;
      assert ExecutionNumbers(s'.execLog) == last + [n + 1];
      assert Numbers(s') == before + [n + 1] + [];
      assert before + [] == before;
      OneNumberMore(before, [], n + 1);
    } else {
      assert Numbers(s') == (own + mid) + [n] + last;
    }
  }

  /** What the last step that wrote to a log was. */
  datatype Logged = NothingYet | Observing | Enforcing

  predicate Observes(s: State, s': State) {
    |s'.obsLog| > |s.obsLog|
  }

  predicate Enforces(s: State, s': State) {
    |s'.enforceLog| > |s.enforceLog|
  }

  function LastLogged(t: seq<State>, k: nat): Logged
    requires k < |t|
  {
    if k == 0 then NothingYet
    else if Observes(t[k - 1], t[k]) then Observing
    else if Enforces(t[k - 1], t[k]) then Enforcing
    else LastLogged(t, k - 1)
  }

  /** The step to position k is an observation, and the last step before it that wrote to a log was an enforcement. */
  predicate ObservesAfterEnforcing(t: seq<State>, k: nat) {
    0 < k < |t| && Observes(t[k - 1], t[k]) && LastLogged(t, k - 1) == Enforcing
  }

  lemma OtherStepsLogNothing(s: State, step: Step)
    requires !step.Observe? && !step.Enforce?
    ensures var s' := After(s, step);
            s'.obsLog == s.obsLog && s'.enforceLog == s.enforceLog && s'.execLog == s.execLog && s'.globalSeq == s.globalSeq
  {
  }

  /** The counter is already taken exactly after an enforcement; and one step keeps the numbers distinct exactly unless
      it observes right after one. */
  lemma StepNumbers(c: Constants, s: State, s': State, last: Logged)
    requires LogsOrdered(s) && Next(c, s, s') && (s.globalSeq in Numbers(s) <==> last == Enforcing)
    ensures Distinct(s') <==> Distinct(s) && !(Observes(s, s') && last == Enforcing)
    ensures s'.globalSeq in Numbers(s') <==>
            (if Observes(s, s') then Observing else if Enforces(s, s') then Enforcing else last) == Enforcing
  {
    var step :| Enabled(c, s, step) && s' == After(s, step);
    match step
    case Observe(e, x, uid, r) => ObserveNumbers(s, e, x, uid, r);
    case Enforce(e, x, uid, r, a) => EnforceNumbers(s, e, x, uid, r, a);
    case _ => OtherStepsLogNothing(s, step);
  }

  /** Up to position k no observation follows an enforcement directly. */
  predicate NeverObservesAfterEnforcing(t: seq<State>, k: nat) {
    forall j | 0 < j <= k :: !ObservesAfterEnforcing(t, j)
  }

  lemma NeverSnoc(t: seq<State>, k: nat)
    requires 0 < k < |t|
    ensures NeverObservesAfterEnforcing(t, k) <==>
            NeverObservesAfterEnforcing(t, k - 1) && !(Observes(t[k - 1], t[k]) && LastLogged(t, k - 1) == Enforcing)
  {
    assert ObservesAfterEnforcing(t, k) <==> Observes(t[k - 1], t[k]) && LastLogged(t, k - 1) == Enforcing;
  }

  lemma StepOf(c: Constants, t: seq<State>, k: nat)
    requires Behaviour(c, t) && 0 < k < |t|
    ensures Next(c, t[k - 1], t[k])
  {
  }

  lemma OrderedAlong(c: Constants, t: seq<State>, k: nat)
    requires Behaviour(c, t) && k < |t|
    ensures LogsOrdered(t[k])
  {
    BehaviourKeeps(c, t, k);
  }

  lemma {:induction false} NumbersAlong(c: Constants, t: seq<State>, k: nat)
    requires Behaviour(c, t) && k < |t|
    ensures t[k].globalSeq in Numbers(t[k]) <==> LastLogged(t, k) == Enforcing
    ensures Distinct(t[k]) <==> NeverObservesAfterEnforcing(t, k)
  {
    if k == 0 {
      NumbersAtStart(c, t);
    } else {
      NumbersAlong(c, t, k - 1);
      StepOf(c, t, k);
      OrderedAlong(c, t, k - 1);
      StepNumbers(c, t[k - 1], t[k], LastLogged(t, k - 1));
      NeverSnoc(t, k);
    }
  }

  lemma NumbersAtStart(c: Constants, t: seq<State>)
    requires Behaviour(c, t)
    ensures Numbers(t[0]) == [] && LastLogged(t, 0) != Enforcing && NeverObservesAfterEnforcing(t, 0)
  {
  }

  /** In every behaviour all numbers of the three logs are pairwise distinct exactly when no observation is the next
      logging step after an enforcement. */
  lemma NumbersDistinctExactlyWhen(c: Constants, t: seq<State>, k: nat)
    requires Behaviour(c, t) && k < |t|
    ensures Distinct(t[k]) <==> forall j | 0 < j <= k :: !ObservesAfterEnforcing(t, j)
  {
    NumbersAlong(c, t, k);
  }
}
