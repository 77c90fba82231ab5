/** The evidence lifecycle of axiomgate_kernel/evidence.py: CANDIDATE, VERIFIED, AUTHORIZED, with an
    append-only event list. The journal is event-sourced: its records are a fold over its events. */
module Evidence {
  import opened Domain
  import opened JsonValues

  datatype Stage = Candidate | Verified | Authorized
  {
    function Rank(): nat {
      match this
      case Candidate => 0
      case Verified => 1
      case Authorized => 2
    }
  }

  datatype Record = Record(
    evidenceId: string,
    producer: string,
    stage: Stage,
    content: Json,
    verification: Option<bool>,
    verifier: Option<string>,
    authorization: Option<bool>,
    authorizer: Option<string>,
    digest: Option<string>)

  datatype Kind = Created | DigestBound | VerificationFailed | VerifiedOk | AuthorizationFailed | AuthorizedOk

  datatype Event = Event(evidenceId: string, kind: Kind, stage: Stage, actor: string, timestamp: int, digest: Option<string>)

  datatype Refusal =
    | BadProducer | IdExists | BadDigest | BadActor | NotFound | DigestAlreadyBound | WrongStage
    | NotBoolean | ProducerCannotVerify | NeedsIv | IvCannotAuthorize | NeedsOwnerDec | ProducerCannotAuthorize
    | Unverified

  datatype Op =
    | Create(id: string, producer: string, content: Json)
    | Bind(id: string, digest: string, actor: string)
    | Verify(id: string, principal: string, role: Role, result: Json)
    | Authorize(id: string, principal: string, role: Role, result: Json)

  datatype Journal = Journal(events: seq<Event>, current: map<string, Record>)

  // ---------------------------------------------------------------- when an operation is refused

  function RefuseBind(r: Record): Option<Refusal> {
    if r.digest.Some? then Some(DigestAlreadyBound)
    else if r.stage != Candidate then Some(WrongStage)
    else None
  }

  function RefuseVerify(r: Record, principal: string, role: Role): Option<Refusal> {
    if r.stage != Candidate then Some(WrongStage)
    else if principal == r.producer then Some(ProducerCannotVerify)
    else if role != RIv then Some(NeedsIv)
    else None
  }

  function RefuseAuthorize(r: Record, principal: string, role: Role): Option<Refusal> {
    if role == RIv then Some(IvCannotAuthorize)
    else if principal != OWNER || role != RDec then Some(NeedsOwnerDec)
    else if principal == r.producer then Some(ProducerCannotAuthorize)
    else if r.stage != Verified then Some(WrongStage)
    else if r.verification != Some(true) then Some(Unverified)
    else None
  }

  function Refuse(current: map<string, Record>, op: Op): Option<Refusal> {
    match op
    case Create(id, producer, _) =>
      if producer == "" then Some(BadProducer) else if id in current then Some(IdExists) else None
    case Bind(id, digest, actor) =>
      if digest == "" then Some(BadDigest) else if actor == "" then Some(BadActor)
      else if id !in current then Some(NotFound) else RefuseBind(current[id])
    case Verify(id, principal, role, result) =>
      if !result.JBool? then Some(NotBoolean) else if id !in current then Some(NotFound)
      else RefuseVerify(current[id], principal, role)
    case Authorize(id, principal, role, result) =>
      if !result.JBool? then Some(NotBoolean) else if id !in current then Some(NotFound)
      else RefuseAuthorize(current[id], principal, role)
  }

  // ---------------------------------------------------------------- what an accepted operation records

  /** The one event an accepted operation appends. */
  function EventFor(op: Op, now: int): Event {
    match op
    case Create(id, producer, _) => Event(id, Created, Candidate, producer, now, None)
    case Bind(id, digest, actor) => Event(id, DigestBound, Candidate, actor, now, Some(digest))
    case Verify(id, principal, _, result) =>
      if result == JBool(true) then Event(id, VerifiedOk, Verified, principal, now, None)
      else Event(id, VerificationFailed, Candidate, principal, now, None)
    case Authorize(id, principal, _, result) =>
      if result == JBool(true) then Event(id, AuthorizedOk, Authorized, principal, now, None)
      else Event(id, AuthorizationFailed, Verified, principal, now, None)
  }

  /** How one event moves a record; content is the only thing an event does not carry. */
  function Advance(before: Option<Record>, e: Event, content: Json): Record {
    if before.None? || e.kind == Created then
      Record(e.evidenceId, e.actor, Candidate, content, None, None, None, None, None)
    else
      var r := before.value;
      match e.kind
      case DigestBound => r.(digest := e.digest)
      case VerificationFailed =>
        r.(stage := Candidate, verification := Some(false), verifier := Some(e.actor), authorization := None, authorizer := None)
      case VerifiedOk =>
        r.(stage := Verified, verification := Some(true), verifier := Some(e.actor), authorization := None, authorizer := None)
      case AuthorizationFailed => r.(stage := Verified, authorization := Some(false), authorizer := Some(e.actor))
      case AuthorizedOk => r.(stage := Authorized, authorization := Some(true), authorizer := Some(e.actor))
  }

  function Lookup(current: map<string, Record>, id: string): Option<Record> {
    if id in current then Some(current[id]) else None
  }

  function ContentOf(op: Op): Json {
    if op.Create? then op.content else JNull
  }

  function After(j: Journal, op: Op, now: int): Journal {
    if Refuse(j.current, op).Some? then j
    else
      var e := EventFor(op, now);
      Journal(j.events + [e], j.current[op.id := Advance(Lookup(j.current, op.id), e, ContentOf(op))])
  }

  // ---------------------------------------------------------------- the journal object

  /** The record operations return a detached copy of the stored record, or the reason they refused. */
  datatype Outcome = Stored(record: Record) | Refused(why: Refusal)

  class EvidenceJournal {
    var events: seq<Event>
    var current: map<string, Record>

    ghost function State(): Journal
      reads this
    {
      Journal(events, current)
    }

    constructor ()
      ensures State() == Journal([], map[])
    {
      events := [];
      current := map[];
    }

    method GetRecord(id: string) returns (r: Option<Record>)
      ensures r == Lookup(current, id)
    {
      if id in current { return Some(current[id]); }
      return None;
    }

    method CreateCandidate(id: string, producer: string, content: Json, now: int) returns (r: Outcome)
      modifies this
      ensures State() == After(old(State()), Create(id, producer, content), now)
      ensures r.Refused? <==> Refuse(old(current), Create(id, producer, content)).Some?
      ensures r.Refused? ==> Some(r.why) == Refuse(old(current), Create(id, producer, content))
      ensures r.Stored? ==> id in current && r.record == current[id]
    {
      if producer == "" { return Refused(BadProducer); }
      if id in current { return Refused(IdExists); }
      var record := Record(id, producer, Candidate, content, None, None, None, None, None);
      current := current[id := record];
      events := events + [Event(id, Created, Candidate, producer, now, None)];
      return Stored(record);
    }

    method BindDigest(id: string, digest: string, actor: string, now: int) returns (r: Outcome)
      modifies this
      ensures State() == After(old(State()), Bind(id, digest, actor), now)
      ensures r.Refused? <==> Refuse(old(current), Bind(id, digest, actor)).Some?
      ensures r.Refused? ==> Some(r.why) == Refuse(old(current), Bind(id, digest, actor))
      ensures r.Stored? ==> id in current && r.record == current[id]
    {
      if digest == "" { return Refused(BadDigest); }
      if actor == "" { return Refused(BadActor); }
      if id !in current { return Refused(NotFound); }
      var record := current[id];
      if record.digest.Some? { return Refused(DigestAlreadyBound); }
      if record.stage != Candidate { return Refused(WrongStage); }
      var updated := Record(record.evidenceId, record.producer, record.stage, record.content, record.verification,
                          record.verifier, record.authorization, record.authorizer, Some(digest));
      current := current[id := updated];
      events := events + [Event(id, DigestBound, record.stage, actor, now, Some(digest))];
      return Stored(updated);
    }

    method VerifyEvidence(id: string, principal: string, role: Role, result: Json, now: int) returns (r: Outcome)
      modifies this
      ensures State() == After(old(State()), Op.Verify(id, principal, role, result), now)
      ensures r.Refused? <==> Refuse(old(current), Op.Verify(id, principal, role, result)).Some?
      ensures r.Refused? ==> Some(r.why) == Refuse(old(current), Op.Verify(id, principal, role, result))
      ensures r.Stored? ==> id in current && r.record == current[id]
    {
      if !result.JBool? { return Refused(NotBoolean); }
      if id !in current { return Refused(NotFound); }
      var record := current[id];
      if record.stage != Candidate { return Refused(WrongStage); }
      if principal == record.producer { return Refused(ProducerCannotVerify); }
      if role != RIv { return Refused(NeedsIv); }
      var stage := if result.b then Verified else Candidate;
      var updated := Record(record.evidenceId, record.producer, stage, record.content, Some(result.b), Some(principal),
                          None, None, record.digest);
      current := current[id := updated];
      events := events + [Event(id, if result.b then VerifiedOk else VerificationFailed, stage, principal, now, None)];
      return Stored(updated);
    }

    method AuthorizeEvidence(id: string, principal: string, role: Role, result: Json, now: int) returns (r: Outcome)
      modifies this
      ensures State() == After(old(State()), Authorize(id, principal, role, result), now)
      ensures r.Refused? <==> Refuse(old(current), Authorize(id, principal, role, result)).Some?
      ensures r.Refused? ==> Some(r.why) == Refuse(old(current), Authorize(id, principal, role, result))
      ensures r.Stored? ==> id in current && r.record == current[id]
    {
      if !result.JBool? { return Refused(NotBoolean); }
      if id !in current { return Refused(NotFound); }
      var record := current[id];
      if role == RIv { return Refused(IvCannotAuthorize); }
      if principal != OWNER || role != RDec { return Refused(NeedsOwnerDec); }
      if principal == record.producer { return Refused(ProducerCannotAuthorize); }
      if record.stage != Verified { return Refused(WrongStage); }
      if record.verification != Some(true) { return Refused(Unverified); }
      var stage := if result.b then Authorized else Verified;
      var updated := Record(record.evidenceId, record.producer, stage, record.content, record.verification, record.verifier,
                          Some(result.b), Some(principal), record.digest);
      current := current[id := updated];
      events := events + [Event(id, if result.b then AuthorizedOk else AuthorizationFailed, stage, principal, now, None)];
      return Stored(updated);
    }
  }

  // ---------------------------------------------------------------- what each operation brings about

  /** The journal after one more event, with the record of its id. */
  predicate Grows(j: Journal, after: Journal, e: Event, r: Record) {
    after == Journal(j.events + [e], j.current[e.evidenceId := r])
  }

  /** Creation: a named producer and a fresh id; the candidate carries nothing but what was given. */
  lemma CreateTakesEffect(j: Journal, id: string, producer: string, content: Json, now: int)
    ensures var op := Create(id, producer, content);
            && (Refuse(j.current, op).None? <==> producer != "" && id !in j.current)
            && if producer != "" && id !in j.current then
                 Grows(j, After(j, op, now), Event(id, Created, Candidate, producer, now, None),
                       Record(id, producer, Candidate, content, None, None, None, None, None))
               else After(j, op, now) == j
  {
  }

  /** Binding a digest: once, to a candidate; nothing else of the record changes. */
  lemma BindTakesEffect(j: Journal, id: string, digest: string, actor: string, now: int)
    ensures var op := Bind(id, digest, actor);
            var allowed := digest != "" && actor != "" && id in j.current && j.current[id].stage == Candidate && j.current[id].digest.None?;
            && (Refuse(j.current, op).None? <==> allowed)
            && if allowed then
                 Grows(j, After(j, op, now), Event(id, DigestBound, Candidate, actor, now, Some(digest)),
                       j.current[id].(digest := Some(digest)))
               else After(j, op, now) == j
  {
  }

  /** Verification: a boolean result, by an R-IV other than the producer, on a candidate. True makes it verified, false
      leaves it a candidate; either way the verifier is recorded and no authorization survives. */
  lemma VerifyTakesEffect(j: Journal, id: string, principal: string, role: Role, result: Json, now: int)
    ensures var op := Op.Verify(id, principal, role, result);
            var allowed := result.JBool? && id in j.current && j.current[id].stage == Candidate && j.current[id].producer != principal
                           && role == RIv;
            && (Refuse(j.current, op).None? <==> allowed)
            && if !allowed then After(j, op, now) == j
               else if result == JBool(true) then
                 Grows(j, After(j, op, now), Event(id, VerifiedOk, Verified, principal, now, None),
                       j.current[id].(stage := Verified, verification := Some(true), verifier := Some(principal),
                                      authorization := None, authorizer := None))
               else
                 Grows(j, After(j, op, now), Event(id, VerificationFailed, Candidate, principal, now, None),
                       j.current[id].(stage := Candidate, verification := Some(false), verifier := Some(principal),
                                      authorization := None, authorizer := None))
  {
  }

  /** Authorization: a boolean result, by the Owner under R-DEC, on what somebody else produced and verification passed.
      True makes it authorized, false leaves it verified. */
  lemma AuthorizeTakesEffect(j: Journal, id: string, principal: string, role: Role, result: Json, now: int)
    ensures var op := Authorize(id, principal, role, result);
            var allowed := result.JBool? && id in j.current && j.current[id].stage == Verified
                           && j.current[id].verification == Some(true) && j.current[id].producer != "owner"
                           && principal == "owner" && role == RDec;
            && (Refuse(j.current, op).None? <==> allowed)
            && if !allowed then After(j, op, now) == j
               else if result == JBool(true) then
                 Grows(j, After(j, op, now), Event(id, AuthorizedOk, Authorized, principal, now, None),
                       j.current[id].(stage := Authorized, authorization := Some(true), authorizer := Some(principal)))
               else
                 Grows(j, After(j, op, now), Event(id, AuthorizationFailed, Verified, principal, now, None),
                       j.current[id].(stage := Verified, authorization := Some(false), authorizer := Some(principal)))
  {
  }

  /** Why a verification or an authorization is refused: the first thing that is wrong, in this order. */
  lemma RefusalTold(current: map<string, Record>, id: string, principal: string, role: Role, result: Json)
    ensures var v, a := Refuse(current, Op.Verify(id, principal, role, result)), Refuse(current, Authorize(id, principal, role, result));
            if !result.JBool? then v == Some(NotBoolean) && a == Some(NotBoolean)
            else if id !in current then v == Some(NotFound) && a == Some(NotFound)
            else
              && (current[id].stage != Candidate ==> v == Some(WrongStage))
              && (current[id].stage == Candidate && principal == current[id].producer ==> v == Some(ProducerCannotVerify))
              && (current[id].stage == Candidate && principal != current[id].producer && role != RIv ==> v == Some(NeedsIv))
              && (role == RIv ==> a == Some(IvCannotAuthorize))
              && (role != RIv && (principal != "owner" || role != RDec) ==> a == Some(NeedsOwnerDec))
              && (principal == "owner" && role == RDec && current[id].producer == "owner" ==> a == Some(ProducerCannotAuthorize))
              && (principal == "owner" && role == RDec && current[id].producer != "owner" && current[id].stage != Verified ==>
                    a == Some(WrongStage))
  {
  }

  // ---------------------------------------------------------------- event sourcing

  /** A record with the one thing no event carries blanked out. */
  function Blank(r: Record): Record {
    r.(content := JNull)
  }

  function BlankAll(current: map<string, Record>): map<string, Record> {
    map id | id in current :: Blank(current[id])
  }

  /** The journal rebuilt from its events alone. */
  function Fold(events: seq<Event>): map<string, Record> {
    if events == [] then map[]
    else
      var before := Fold(events[..|events| - 1]);
      var e := events[|events| - 1];
      before[e.evidenceId := Advance(Lookup(before, e.evidenceId), e, JNull)]
  }

  /** The kinds of event one id has seen, in order. */
  function History(events: seq<Event>, id: string): seq<Kind> {
    if events == [] then []
    else
      var e := events[|events| - 1];
      History(events[..|events| - 1], id) + (if e.evidenceId == id then [e.kind] else [])
  }

  function Run(j: Journal, ops: seq<(Op, int)>): Journal
    decreases |ops|
  {
    if ops == [] then j else After(Run(j, ops[..|ops| - 1]), ops[|ops| - 1].0, ops[|ops| - 1].1)
  }

  const EMPTY := Journal([], map[])

  lemma HistorySnoc(events: seq<Event>, e: Event, id: string)
    ensures History(events + [e], id) == History(events, id) + (if e.evidenceId == id then [e.kind] else [])
  {
    assert (events + [e])[..|events|] == events;
  }

  lemma FoldSnoc(events: seq<Event>, e: Event)
    ensures Fold(events + [e]) == Fold(events)[e.evidenceId := Advance(Lookup(Fold(events), e.evidenceId), e, JNull)]
  {
    assert (events + [e])[..|events|] == events;
  }

  lemma AdvanceIgnoresContent(r: Option<Record>, e: Event, content: Json)
    ensures Blank(Advance(r, e, content)) == Advance(if r.Some? then Some(Blank(r.value)) else None, e, JNull)
  {
  }

  lemma BlankAllUpdate(current: map<string, Record>, id: string, r: Record)
    ensures BlankAll(current[id := r]) == BlankAll(current)[id := Blank(r)]
  {
  }

  lemma StepKeepsFold(j: Journal, op: Op, now: int)
    requires Fold(j.events) == BlankAll(j.current)
    ensures Fold(After(j, op, now).events) == BlankAll(After(j, op, now).current)
  {
    if Refuse(j.current, op).None? {
      var e := EventFor(op, now);
      FoldSnoc(j.events, e);
      AdvanceIgnoresContent(Lookup(j.current, op.id), e, ContentOf(op));
      BlankAllUpdate(j.current, op.id, Advance(Lookup(j.current, op.id), e, ContentOf(op)));
    }
  }

  /** In every reachable journal, folding the events rebuilds every current record except its content. */
  lemma {:induction false} EventsRebuildRecords(ops: seq<(Op, int)>)
    ensures var j := Run(EMPTY, ops); Fold(j.events) == BlankAll(j.current)
  {
    if ops != [] {
      EventsRebuildRecords(ops[..|ops| - 1]);
      StepKeepsFold(Run(EMPTY, ops[..|ops| - 1]), ops[|ops| - 1].0, ops[|ops| - 1].1);
    }
  }

  // ---------------------------------------------------------------- the shape of each id's history

  predicate Preparation(h: seq<Kind>) {
    && (forall i | 0 <= i < |h| :: h[i] in {DigestBound, VerificationFailed})
    && (forall i, j | 0 <= i < j < |h| :: !(h[i] == DigestBound && h[j] == DigestBound))
  }

  predicate AllFailed(h: seq<Kind>) {
    forall i | 0 <= i < |h| :: h[i] == AuthorizationFailed
  }

  /** create, then at most one digest_bound among any verification_failed. */
  predicate CandidateShape(h: seq<Kind>) {
    h != [] && h[0] == Created && Preparation(h[1..])
  }

  /** ... then verified, then any authorization_failed. */
  ghost predicate VerifiedShape(h: seq<Kind>) {
    exists n: nat :: SplitAt(h, n)
  }

  predicate SplitAt(h: seq<Kind>, n: nat) {
    n < |h| && CandidateShape(h[..n]) && h[n] == VerifiedOk && AllFailed(h[n + 1..])
  }

  /** ... then authorized, and nothing more. */
  ghost predicate AuthorizedShape(h: seq<Kind>) {
    h != [] && h[|h| - 1] == AuthorizedOk && VerifiedShape(h[..|h| - 1])
  }

  ghost predicate ShapeOf(h: seq<Kind>, r: Record) {
    match r.stage
    case Candidate => CandidateShape(h) && (r.digest.Some? <==> DigestBound in h)
    case Verified => VerifiedShape(h)
    case Authorized => AuthorizedShape(h)
  }

  /** The roles in one record: the producer is neither verifier nor authorizer, only the Owner authorizes, and
      an authorized record has passed verification. */
  predicate RolesApart(r: Record) {
    && r.producer != ""
    && r.verifier != Some(r.producer)
    && r.authorizer != Some(r.producer)
    && (r.authorizer.Some? ==> r.authorizer == Some(OWNER))
    && (r.stage != Candidate ==> r.verification == Some(true) && r.verifier.Some?)
    && (r.stage == Authorized <==> r.authorization == Some(true))
  }

  ghost predicate Lived(h: seq<Kind>, r: Record, id: string) {
    ShapeOf(h, r) && RolesApart(r) && r.evidenceId == id
  }

  ghost predicate Lifecycles(j: Journal) {
    && (forall id | id in j.current :: Lived(History(j.events, id), j.current[id], id))
    && (forall id | id !in j.current :: History(j.events, id) == [])
  }

  lemma CandidateExtends(h: seq<Kind>, k: Kind)
    requires CandidateShape(h) && (k == VerificationFailed || (k == DigestBound && DigestBound !in h))
    ensures CandidateShape(h + [k])
  {
    assert (h + [k])[1..] == h[1..] + [k];
    if k == DigestBound {
      forall i | 0 <= i < |h[1..]| ensures h[1..][i] != DigestBound {
        assert h[1..][i] == h[i + 1];
      }
    }
  }

  lemma VerifiedExtends(h: seq<Kind>)
    requires VerifiedShape(h)
    ensures VerifiedShape(h + [AuthorizationFailed])
  {
    var n: nat :| SplitAt(h, n);
    var h' := h + [AuthorizationFailed];
    assert h'[..n] == h[..n] && h'[n + 1..] == h[n + 1..] + [AuthorizationFailed];
    assert SplitAt(h', n);
  }

  /** One accepted event moves the shape of its id along with the record. */
  lemma ShapeAdvances(h: seq<Kind>, r: Record, op: Op, now: int)
    requires Lived(h, r, op.id) && !op.Create?
    requires Refuse(map[op.id := r], op).None?
    ensures var e := EventFor(op, now); Lived(h + [e.kind], Advance(Some(r), e, JNull), op.id)
  {
    var e := EventFor(op, now);
    match op
    case Bind(_, _, _) =>
      CandidateExtends(h, DigestBound);
    case Verify(_, _, _, _) =>
      if e.kind == VerificationFailed {
        CandidateExtends(h, VerificationFailed);
      } else {
        var h' := h + [VerifiedOk];
        assert h'[..|h|] == h && h'[|h| + 1..] == [];
        assert SplitAt(h', |h|);
      }
    case Authorize(_, _, _, _) =>
      if e.kind == AuthorizationFailed {
        VerifiedExtends(h);
      } else {
        assert (h + [AuthorizedOk])[..|h|] == h;
      }
  }

  lemma OpKeepsLived(j: Journal, op: Op, now: int)
    requires Lifecycles(j) && Refuse(j.current, op).None?
    ensures var j' := After(j, op, now); Lived(History(j'.events, op.id), j'.current[op.id], op.id)
  {
    var e := EventFor(op, now);
    HistorySnoc(j.events, e, op.id);
    if op.Create? {
      assert History(j.events, op.id) == [];
    } else {
      assert Lived(History(j.events, op.id), j.current[op.id], op.id);
      assert Refuse(map[op.id := j.current[op.id]], op) == Refuse(j.current, op);
      ShapeAdvances(History(j.events, op.id), j.current[op.id], op, now);
    }
  }

  lemma StepKeepsLifecycles(j: Journal, op: Op, now: int)
    requires Lifecycles(j)
    ensures Lifecycles(After(j, op, now))
  {
    if Refuse(j.current, op).None? {
      var j' := After(j, op, now);
      forall id | id != op.id ensures History(j'.events, id) == History(j.events, id) {
        HistorySnoc(j.events, EventFor(op, now), id);
      }
      OpKeepsLived(j, op, now);
      forall id | id in j'.current ensures Lived(History(j'.events, id), j'.current[id], id) {
        if id != op.id {
          assert Lived(History(j.events, id), j.current[id], id);
        }
      }
    }
  }

  /** Every id's events follow the lifecycle, and no record mixes its roles, in every reachable journal. */
  lemma {:induction false} LifecyclesAlways(ops: seq<(Op, int)>)
    ensures Lifecycles(Run(EMPTY, ops))
  {
    if ops == [] {
    } else {
      LifecyclesAlways(ops[..|ops| - 1]);
      StepKeepsLifecycles(Run(EMPTY, ops[..|ops| - 1]), ops[|ops| - 1].0, ops[|ops| - 1].1);
    }
  }

  // ---------------------------------------------------------------- no way back

  /** What can never be undone: records stay, the stage never falls, and a digest never changes once set;
      producer and content are fixed at creation and past events are never rewritten. */
  ghost predicate Extends(j: Journal, j': Journal) {
    && j.events <= j'.events
    && forall id | id in j.current :: id in j'.current && Kept(j.current[id], j'.current[id])
  }

  predicate Kept(r: Record, r': Record) {
    && r.stage.Rank() <= r'.stage.Rank()
    && (r.digest.Some? ==> r'.digest == r.digest)
    && r'.producer == r.producer && r'.content == r.content && r'.evidenceId == r.evidenceId
    && (r.stage != Candidate ==> r'.digest == r.digest && r'.verifier == r.verifier)
  }

  lemma StepExtends(j: Journal, op: Op, now: int)
    ensures Extends(j, After(j, op, now))
  {
  }

  lemma RunSplit(j: Journal, ops: seq<(Op, int)>, n: nat)
    requires n < |ops|
    ensures Run(j, ops[..n + 1]) == After(Run(j, ops[..n]), ops[n].0, ops[n].1)
  {
    assert ops[..n + 1][..n] == ops[..n];
  }

  /** Along any run, from any point to any later one, the journal only extends. */
  lemma {:induction false} NoRetraction(j: Journal, ops: seq<(Op, int)>, n: nat, m: nat)
    requires n <= m <= |ops|
    ensures Extends(Run(j, ops[..n]), Run(j, ops[..m]))
    decreases m
  {
    if n < m {
      NoRetraction(j, ops, n, m - 1);
      RunSplit(j, ops, m - 1);
      StepExtends(Run(j, ops[..m - 1]), ops[m - 1].0, ops[m - 1].1);
    }
  }
}
