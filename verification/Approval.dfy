/** The Ed25519 approval verifier of axiomgate_kernel/approval.py: binding checks over an envelope, then
    single-use consumption with eviction and rollback. */
module Approval {
  import opened Domain
  import opened JsonValues
  import opened Authentication
  import Text

  /** The verifier's configuration, with the encodings and the signature scheme as ideal functions. */
  datatype Config = Config(
    owner: string,
    ttl: int,
    iso: string -> Instant,
    str: Json -> string,
    bytesOf: Fields -> Option<string>,
    fromHex: string -> Option<string>,
    verifies: (string, string) -> bool)
  {
    /** str(payload.get(key, "")). */
    function Str(payload: Fields, key: string): string {
      if key in payload then str(payload[key]) else ""
    }
  }

  /** What the caller binds the approval to; an empty string or None leaves that dimension open. */
  datatype Expected = Expected(tool: string, args: Option<Fields>, escalation: string, risk: string, session: string)

  function UpperChar(c: char): char {
    if 'a' <= c <= 'z' then c - 'a' + 'A' else c
  }

  function Upper(s: string): string {
    seq(|s|, i requires 0 <= i < |s| => UpperChar(s[i]))
  }

  /** The outcome of every check that does not look at the consumption state. */
  datatype Screened =
    | Rejected(rule: string)
    | Crashed                                  // canonical_bytes raised outside any handler
    | Passed(escalation: string, nonce: string, t: int)

  function ScreenEnvelope(c: Config, envelope: Fields): Option<string> {
    var algo := if "algorithm" in envelope then envelope["algorithm"] else JStr("");
    var signature := Get(envelope, "signature");
    if algo == JStr("SHA256") || algo == JStr("sha256") || ("payload_hash" in envelope && "signature" !in envelope)
    then Some("approval.legacy_sha256_rejected")
    else if !signature.NonEmptyString() then Some("approval.signature_missing")
    else if algo != JStr("Ed25519") then Some("approval.unsupported_algorithm")
    else if c.fromHex(signature.s).None? then Some("approval.invalid_signature_encoding")
    else if |c.fromHex(signature.s).value| != 64 then Some("approval.invalid_signature_length")
    else if !Get(envelope, "payload").JObj? then Some("approval.payload_missing")
    else None
  }

  function ScreenArgs(c: Config, payload: Fields, expected: Option<Fields>): Option<string> {
    var args := Get(payload, "args");
    if !args.JObj? then Some("approval.invalid_payload_args")
    else if expected.None? then None
    else if c.bytesOf(args.fields).None? || c.bytesOf(expected.value).None? then Some("approval.args_encoding_error")
    else if c.bytesOf(args.fields) != c.bytesOf(expected.value) then Some("approval.args_binding_mismatch")
    else None
  }

  function ScreenBinding(c: Config, payload: Fields, e: Expected): Option<string> {
    var escalation := c.Str(payload, "escalation_id");
    if Upper(c.Str(payload, "decision")) != "APPROVE" then Some("approval.decision_denied")
    else if c.Str(payload, "approver_id") != c.owner then Some("approval.unauthorized_approver")
    else if escalation == "" then Some("approval.missing_escalation_id")
    else if e.escalation != "" && escalation != e.escalation then Some("approval.escalation_binding_mismatch")
    else if e.tool != "" && c.Str(payload, "tool") != e.tool then Some("approval.tool_binding_mismatch")
    else if ScreenArgs(c, payload, e.args).Some? then ScreenArgs(c, payload, e.args)
    else if e.risk != "" && c.Str(payload, "risk") != e.risk then Some("approval.risk_binding_mismatch")
    else if e.session != "" && c.Str(payload, "request_session_id") != e.session then Some("approval.session_binding_mismatch")
    else None
  }

  function ScreenTime(c: Config, payload: Fields, now: int): Option<string> {
    var stamp := Get(payload, "timestamp");
    if !stamp.NonEmptyString() then Some("approval.timestamp_missing")
    else
      match c.iso(stamp.s)
      case Malformed => Some("approval.malformed_timestamp")
      case Naive => Some("approval.naive_timestamp")
      case At(t) =>
        if now - t > c.ttl then Some("approval.expired")
        else if t > now + SKEW then Some("approval.future_timestamp")
        else None
  }

  function Screen(c: Config, envelope: Json, e: Expected, now: int): Screened {
    if !envelope.JObj? then Rejected("approval.invalid_envelope")
    else if ScreenEnvelope(c, envelope.fields).Some? then Rejected(ScreenEnvelope(c, envelope.fields).value)
    else
      var payload := Get(envelope.fields, "payload").fields;
      var nonce := Text.Strip(c.Str(payload, "nonce"));
      if ScreenBinding(c, payload, e).Some? then Rejected(ScreenBinding(c, payload, e).value)
      else if ScreenTime(c, payload, now).Some? then Rejected(ScreenTime(c, payload, now).value)
      else if nonce == "" then Rejected("approval.nonce_missing")
      else if c.bytesOf(payload).None? then Crashed
      else if !c.verifies(c.fromHex(Get(envelope.fields, "signature").s).value, c.bytesOf(payload).value)
      then Rejected("approval.signature_verification_failed")
      else Passed(c.Str(payload, "escalation_id"), nonce, c.iso(Get(payload, "timestamp").s).t)
  }

  /** What a passing envelope is bound to, stated field by field. */
  predicate Binds(c: Config, payload: Fields, e: Expected) {
    && Upper(c.Str(payload, "decision")) == "APPROVE"
    && c.Str(payload, "approver_id") == c.owner
    && c.Str(payload, "escalation_id") != "" && e.escalation in ["", c.Str(payload, "escalation_id")]
    && e.tool in ["", c.Str(payload, "tool")]
    && e.risk in ["", c.Str(payload, "risk")]
    && e.session in ["", c.Str(payload, "request_session_id")]
    && Get(payload, "args").JObj?
    && (e.args.Some? ==>
          c.bytesOf(e.args.value).Some? && c.bytesOf(Get(payload, "args").fields) == c.bytesOf(e.args.value))
  }

  /** Capitals make no difference to the decision: it is the seven letters of approve, in either case. */
  lemma ApprovesExactlyWhen(text: string)
    ensures Upper(text) == "APPROVE" <==>
            |text| == 7 && forall i | 0 <= i < 7 :: text[i] == "APPROVE"[i] || text[i] == "approve"[i]
  {
    if |text| == 7 {
      assert forall i | 0 <= i < 7 :: UpperChar(text[i]) == "APPROVE"[i] <==> text[i] == "APPROVE"[i] || text[i] == "approve"[i];
    }
  }

  /** The nonce without the white space around it. */
  function NonceOf(c: Config, payload: Fields): string {
    Text.Strip(c.Str(payload, "nonce"))
  }

  /** The envelope says Ed25519 and is no hash-only envelope of the old format; its signature is 64 bytes of hex. */
  predicate Enveloped(c: Config, envelope: Fields) {
    && "algorithm" in envelope && envelope["algorithm"] == JStr("Ed25519") && "signature" in envelope
    && envelope["signature"].JStr? && envelope["signature"].s != ""
    && c.fromHex(envelope["signature"].s).Some? && |c.fromHex(envelope["signature"].s).value| == 64
    && Get(envelope, "payload").JObj?
  }

  /** The payload was signed at t, which lies in the window around now. */
  predicate TimelyAt(c: Config, payload: Fields, now: int, t: int) {
    && Get(payload, "timestamp").JStr? && Get(payload, "timestamp").s != "" && c.iso(Get(payload, "timestamp").s) == At(t)
    && now - t <= c.ttl && t <= now + 5_000_000
  }

  /** The signature verifies over the canonical bytes of the payload. */
  predicate Signed(c: Config, envelope: Fields, payload: Fields)
    requires Enveloped(c, envelope)
  {
    && c.bytesOf(payload).Some?
    && c.verifies(c.fromHex(envelope["signature"].s).value, c.bytesOf(payload).value)
  }

  /** Everything that makes an envelope genuine and fit for what the caller expects, as signed at t. */
  predicate Genuine(c: Config, envelope: Json, e: Expected, now: int, t: int) {
    && envelope.JObj? && Enveloped(c, envelope.fields)
    && var payload := Get(envelope.fields, "payload").fields;
       && Binds(c, payload, e) && TimelyAt(c, payload, now, t) && NonceOf(c, payload) != ""
       && Signed(c, envelope.fields, payload)
  }

  lemma EnvelopeExactlyWhen(c: Config, envelope: Fields)
    ensures ScreenEnvelope(c, envelope).None? <==> Enveloped(c, envelope)
  {
    assert JStr("SHA256").s[0] == 'S' && JStr("sha256").s[0] == 's' && JStr("Ed25519").s[0] == 'E' && JStr("") != JStr("Ed25519");
  }

  lemma BindingExactlyWhen(c: Config, payload: Fields, e: Expected)
    ensures ScreenBinding(c, payload, e).None? <==> Binds(c, payload, e)
  {
  }

  lemma TimeExactlyWhen(c: Config, payload: Fields, now: int)
    ensures ScreenTime(c, payload, now).None? <==> exists t :: TimelyAt(c, payload, now, t)
    ensures forall t | TimelyAt(c, payload, now, t) :: ScreenTime(c, payload, now).None? && c.iso(Get(payload, "timestamp").s).t == t
  {
    if ScreenTime(c, payload, now).None? {
      assert TimelyAt(c, payload, now, c.iso(Get(payload, "timestamp").s).t);
    }
  }

  /** An envelope passes exactly when it is genuine, and then as the escalation, the nonce and the moment it carries. */
  lemma PassesExactlyWhen(c: Config, envelope: Json, e: Expected, now: int)
    ensures Screen(c, envelope, e, now).Passed? <==> exists t :: Genuine(c, envelope, e, now, t)
    ensures forall t | Genuine(c, envelope, e, now, t) ::
              var payload := Get(envelope.fields, "payload").fields;
              Screen(c, envelope, e, now) == Passed(c.Str(payload, "escalation_id"), NonceOf(c, payload), t)
  {
    if envelope.JObj? {
      EnvelopeExactlyWhen(c, envelope.fields);
      if Enveloped(c, envelope.fields) {
        var payload := Get(envelope.fields, "payload").fields;
        BindingExactlyWhen(c, payload, e);
        TimeExactlyWhen(c, payload, now);
        if Screen(c, envelope, e, now).Passed? {
          assert Genuine(c, envelope, e, now, c.iso(Get(payload, "timestamp").s).t);
        }
      }
    }
  }

  /** The Owner's signing history: a set of message bytes, the only ones any signature verifies for. */
  ghost predicate Unforgeable(c: Config, signed: iset<string>) {
    forall sig, m :: c.verifies(sig, m) ==> m in signed
  }

  ghost predicate InjectiveBytes(c: Config) {
    forall a, b :: c.bytesOf(a).Some? && c.bytesOf(a) == c.bytesOf(b) ==> a == b
  }

  /** A passing envelope carries a payload the Owner signed, bound in every dimension the caller named, inside
      its TTL window; its arguments are exactly the expected ones. */
  lemma PassedIsSignedAndBound(c: Config, signed: iset<string>, envelope: Json, e: Expected, now: int)
    requires Unforgeable(c, signed) && InjectiveBytes(c)
    requires Screen(c, envelope, e, now).Passed?
    ensures envelope.JObj? && Get(envelope.fields, "payload").JObj?
    ensures var payload := Get(envelope.fields, "payload").fields;
            && Binds(c, payload, e)
            && (e.args.Some? ==> Get(payload, "args").fields == e.args.value)
            && c.bytesOf(payload).Some? && c.bytesOf(payload).value in signed
            && var s := Screen(c, envelope, e, now);
               s.escalation == c.Str(payload, "escalation_id") && now - s.t <= c.ttl && s.t <= now + SKEW
  {
    PassesExactlyWhen(c, envelope, e, now);
  }

  /** Anything wrong in one dimension is refused, whatever the signature says. */
  lemma UnboundNeverPasses(c: Config, envelope: Json, e: Expected, now: int)
    requires envelope.JObj? && Get(envelope.fields, "payload").JObj?
    requires !Binds(c, Get(envelope.fields, "payload").fields, e)
    ensures Screen(c, envelope, e, now).Rejected?
  {
  }

  // ---------------------------------------------------------------- consumption

  /** Consumed nonces in insertion order, and consumed escalation ids. */
  datatype Ledger = Ledger(nonces: seq<Mark>, escalations: set<string>)

  /** The optional audit log: absent, recording, or failing on this call. */
  datatype Sink = NoSink | Records | Fails

  datatype Outcome = Outcome(valid: bool, rule: string)

  /** Expired nonces leave from the front until the first live one. */
  function Evict(marks: seq<Mark>, cutoff: int): seq<Mark> {
    if marks != [] && marks[0].t < cutoff then Evict(marks[1..], cutoff) else marks
  }

  function Without(marks: seq<Mark>, nonce: string): seq<Mark> {
    if marks == [] then []
    else if marks[0].nonce == nonce then Without(marks[1..], nonce)
    else [marks[0]] + Without(marks[1..], nonce)
  }

  /** Refused by the consumption state alone. */
  function Spent(l: Ledger, escalation: string, nonce: string): Option<string> {
    if escalation in l.escalations then Some("approval.already_consumed")
    else if Known(l.nonces, nonce) then Some("approval.nonce_replayed")
    else None
  }

  /** One call as the consumption section sees it: the screening result, and what the caller asked for. */
  datatype Ticket = Ticket(screened: Screened, consume: bool, now: int, sink: Sink)

  function Settle(ttl: int, l: Ledger, k: Ticket): (r: (Ledger, Outcome)) {
    match k.screened
    case Rejected(rule) => (l, Outcome(false, rule))
    case Crashed => (l, Outcome(false, "raised"))
    case Passed(escalation, nonce, t) =>
      if Spent(l, escalation, nonce).Some? then (l, Outcome(false, Spent(l, escalation, nonce).value))
      else if !k.consume then (l, Outcome(true, "approval.ok"))
      else
        var kept := Evict(l.nonces, k.now - ttl);
        if k.sink.Fails? then (Ledger(kept, l.escalations), Outcome(false, "approval.audit_failed"))
        else (Ledger(kept + [Mark(nonce, t)], l.escalations + {escalation}), Outcome(true, "approval.ok"))
  }

  /** A call is valid exactly when the envelope is genuine, neither its escalation nor its nonce is spent, and -- if the
      caller consumes it -- the audit sink does not fail. A valid consumption, and nothing else, spends both. */
  lemma ValidExactlyWhen(c: Config, l: Ledger, envelope: Json, e: Expected, consume: bool, now: int, sink: Sink)
    ensures var (after, r) := Settle(c.ttl, l, Ticket(Screen(c, envelope, e, now), consume, now, sink));
            && (r.valid <==> (exists t :: Genuine(c, envelope, e, now, t)) && Unspent(c, l, envelope) && (consume ==> !sink.Fails?))
            && (r.valid ==> r.rule == "approval.ok")
            && (!(r.valid && consume) ==> after.escalations == l.escalations)
            && (!r.valid && r.rule != "approval.audit_failed" ==> after == l)
            && (r.valid && consume ==>
                  after.escalations == l.escalations + {c.Str(Get(envelope.fields, "payload").fields, "escalation_id")})
  {
    PassesExactlyWhen(c, envelope, e, now);
  }

  /** Why a genuine envelope is refused: its escalation was consumed, its nonce was, or the audit sink failed. */
  lemma GenuineRefusals(c: Config, l: Ledger, envelope: Json, e: Expected, consume: bool, now: int, sink: Sink, t: int)
    requires Genuine(c, envelope, e, now, t)
    ensures var (after, r) := Settle(c.ttl, l, Ticket(Screen(c, envelope, e, now), consume, now, sink));
            var payload := Get(envelope.fields, "payload").fields;
            && (c.Str(payload, "escalation_id") in l.escalations ==> r.rule == "approval.already_consumed" && after == l)
            && (c.Str(payload, "escalation_id") !in l.escalations && Known(l.nonces, NonceOf(c, payload)) ==>
                  r.rule == "approval.nonce_replayed" && after == l)
            && (Unspent(c, l, envelope) && consume && sink.Fails? ==> r.rule == "approval.audit_failed")
            && (Unspent(c, l, envelope) && !consume ==> r.valid && after == l)
            && (r.valid && consume ==> after.nonces == Evict(l.nonces, now - c.ttl) + [Mark(NonceOf(c, payload), t)])
  {
    PassesExactlyWhen(c, envelope, e, now);
  }

  /** Neither the escalation nor the nonce that the envelope carries has been consumed. */
  predicate Unspent(c: Config, l: Ledger, envelope: Json) {
    && envelope.JObj? && Get(envelope.fields, "payload").JObj?
    && var payload := Get(envelope.fields, "payload").fields;
       && c.Str(payload, "escalation_id") !in l.escalations
       && forall i | 0 <= i < |l.nonces| :: l.nonces[i].nonce != NonceOf(c, payload)
  }

  lemma {:induction false} EvictSuffix(marks: seq<Mark>, cutoff: int)
    ensures var kept := Evict(marks, cutoff); var n := |marks| - |kept|;
            0 <= n && kept == marks[n..] && forall i | 0 <= i < n :: marks[i].t < cutoff
  {
    if marks != [] && marks[0].t < cutoff {
      EvictSuffix(marks[1..], cutoff);
    }
  }

  /** Eviction stops only at a nonce that is still live. */
  lemma {:induction false} EvictStopsAtLive(marks: seq<Mark>, cutoff: int)
    ensures Evict(marks, cutoff) != [] ==> Evict(marks, cutoff)[0].t >= cutoff
  {
    if marks != [] && marks[0].t < cutoff {
      EvictStopsAtLive(marks[1..], cutoff);
    }
  }

  lemma {:induction false} WithoutUnknown(marks: seq<Mark>, nonce: string)
    requires !Known(marks, nonce)
    ensures Without(marks, nonce) == marks
  {
    if marks != [] {
      assert forall i :: 0 <= i < |marks[1..]| ==> marks[1..][i] == marks[i + 1];
      WithoutUnknown(marks[1..], nonce);
    }
  }

  lemma {:induction false} WithoutLast(marks: seq<Mark>, m: Mark)
    requires !Known(marks, m.nonce)
    ensures Without(marks + [m], m.nonce) == marks
  {
    if marks == [] {
      assert ([] + [m])[1..] == [];
    } else {
      assert forall i :: 0 <= i < |marks[1..]| ==> marks[1..][i] == marks[i + 1];
      assert (marks + [m])[1..] == marks[1..] + [m];
      WithoutLast(marks[1..], m);
    }
  }

  lemma SuffixKnowsLess(marks: seq<Mark>, n: nat, nonce: string)
    requires n <= |marks|
    ensures Known(marks[n..], nonce) ==> Known(marks, nonce)
  {
    if Known(marks[n..], nonce) {
      var i :| 0 <= i < |marks[n..]| && marks[n..][i].nonce == nonce;
      assert marks[n + i].nonce == nonce;
    }
  }

  /** The rollback takes back what the consumption put in, and no more. */
  lemma TakenBack(l: Ledger, escalation: string, nonce: string, t: int, cutoff: int)
    requires Spent(l, escalation, nonce).None?
    ensures Without(Evict(l.nonces, cutoff) + [Mark(nonce, t)], nonce) == Evict(l.nonces, cutoff)
    ensures l.escalations + {escalation} - {escalation} == l.escalations
  {
    var kept := Evict(l.nonces, cutoff);
    EvictSuffix(l.nonces, cutoff);
    SuffixKnowsLess(l.nonces, |l.nonces| - |kept|, nonce);
    WithoutLast(kept, Mark(nonce, t));
  }

  class ApprovalVerifier {
    const config: Config
    var consumedNonces: seq<Mark>
    var consumedEscalations: set<string>

    ghost function State(): Ledger
      reads this
    {
      Ledger(consumedNonces, consumedEscalations)
    }

    constructor (config: Config)
      ensures this.config == config && State() == Ledger([], {})
    {
      this.config := config;
      consumedNonces, consumedEscalations := [], {};
    }

    /** verify (consume false) and consume (consume true), after the envelope checks. */
    method VerifyInternal(envelope: Json, e: Expected, consume: bool, now: int, sink: Sink) returns (r: Outcome)
      modifies this
      ensures (State(), r) ==
              Settle(config.ttl, old(State()), Ticket(Screen(config, envelope, e, now), consume, now, sink))
    {
      var s := Screen(config, envelope, e, now);
      if s.Rejected? { return Outcome(false, s.rule); }
      if s.Crashed? { return Outcome(false, "raised"); }
      if s.escalation in consumedEscalations { return Outcome(false, "approval.already_consumed"); }
      if Known(consumedNonces, s.nonce) { return Outcome(false, "approval.nonce_replayed"); }
      if consume {
        r := ConsumeOnce(s.escalation, s.nonce, s.t, now, sink);
        return;
      }
      return Outcome(true, "approval.ok");
    }

    /** The single-use section: evict, consume, and roll back when the audit log fails. */
    method ConsumeOnce(escalation: string, nonce: string, t: int, now: int, sink: Sink) returns (r: Outcome)
      requires Spent(State(), escalation, nonce).None?
      modifies this
      ensures (State(), r) == Settle(config.ttl, old(State()), Ticket(Passed(escalation, nonce, t), true, now, sink))
    {
      TakenBack(State(), escalation, nonce, t, now - config.ttl);
      EvictExpired(now - config.ttl);
      consumedNonces := consumedNonces + [Mark(nonce, t)];
      consumedEscalations := consumedEscalations + {escalation};
      if sink.Fails? {
        consumedNonces := Without(consumedNonces, nonce);
        consumedEscalations := consumedEscalations - {escalation};
        return Outcome(false, "approval.audit_failed");
      }
      return Outcome(true, "approval.ok");
    }

    method EvictExpired(cutoff: int)
      modifies this`consumedNonces
      ensures consumedNonces == Evict(old(consumedNonces), cutoff)
    {
      while consumedNonces != []
        invariant Evict(consumedNonces, cutoff) == Evict(old(consumedNonces), cutoff)
        decreases |consumedNonces|
      {
        if consumedNonces[0].t < cutoff {
          consumedNonces := consumedNonces[1..];
        } else {
          break;
        }
      }
    }
  }

  // ---------------------------------------------------------------- runs

  function LedgerBefore(ttl: int, l: Ledger, run: seq<Ticket>, n: nat): Ledger
    requires n <= |run|
  {
    if n == 0 then l else Settle(ttl, LedgerBefore(ttl, l, run, n - 1), run[n - 1]).0
  }

  function OutcomeAt(ttl: int, l: Ledger, run: seq<Ticket>, n: nat): Outcome
    requires n < |run|
  {
    Settle(ttl, LedgerBefore(ttl, l, run, n), run[n]).1
  }

  /** The call at n went through and used up its approval. */
  predicate ConsumedAt(ttl: int, l: Ledger, run: seq<Ticket>, n: nat)
    requires n < |run|
  {
    run[n].consume && OutcomeAt(ttl, l, run, n).valid
  }

  predicate Forward(run: seq<Ticket>) {
    forall i, j :: 0 <= i < j < |run| ==> run[i].now <= run[j].now
  }

  lemma {:induction false} EscalationsOnlyGrow(ttl: int, l: Ledger, run: seq<Ticket>, i: nat, j: nat)
    requires i <= j <= |run|
    ensures LedgerBefore(ttl, l, run, i).escalations <= LedgerBefore(ttl, l, run, j).escalations
    decreases j
  {
    if i < j {
      EscalationsOnlyGrow(ttl, l, run, i, j - 1);
    }
  }

  /** Net of audit failures an escalation id is consumed at most once, and once it is, no envelope naming it is
      valid again -- not even for verify, and whatever the clock does. */
  lemma EscalationConsumedOnce(ttl: int, l: Ledger, run: seq<Ticket>, i: nat, j: nat)
    requires i < j < |run| && ConsumedAt(ttl, l, run, i)
    requires run[j].screened.Passed? && run[j].screened.escalation == run[i].screened.escalation
    ensures OutcomeAt(ttl, l, run, j) == Outcome(false, "approval.already_consumed")
  {
    EscalationsOnlyGrow(ttl, l, run, i + 1, j);
  }

  predicate NonceRemembered(ttl: int, l: Ledger, m: Mark, now: int) {
    m in l.nonces || now - m.t > ttl
  }

  lemma {:induction false} NonceRememberedUntil(ttl: int, l: Ledger, run: seq<Ticket>, i: nat, j: nat)
    requires Forward(run) && i < j <= |run| && ConsumedAt(ttl, l, run, i)
    ensures var s := run[i].screened; NonceRemembered(ttl, LedgerBefore(ttl, l, run, j), Mark(s.nonce, s.t), run[j - 1].now)
    decreases j
  {
    if j > i + 1 {
      NonceRememberedUntil(ttl, l, run, i, j - 1);
      EvictSuffix(LedgerBefore(ttl, l, run, j - 1).nonces, run[j - 1].now - ttl);
    }
  }

  /** Under a forward clock a consumed nonce is honoured again only for another escalation, and only once its own
      timestamp is out of the window. */
  lemma NonceReusedOnlyOutOfWindow(ttl: int, l: Ledger, run: seq<Ticket>, i: nat, j: nat)
    requires Forward(run) && i < j < |run| && ConsumedAt(ttl, l, run, i)
    requires OutcomeAt(ttl, l, run, j).valid && run[j].screened.nonce == run[i].screened.nonce
    ensures run[j].now - run[i].screened.t > ttl
    ensures run[j].screened.escalation != run[i].screened.escalation
  {
    NonceRememberedUntil(ttl, l, run, i, j);
    EscalationsOnlyGrow(ttl, l, run, i + 1, j);
  }

  datatype Attempt = Attempt(envelope: Json, expected: Expected, consume: bool, now: int, sink: Sink)

  function TicketOf(c: Config, a: Attempt): Ticket {
    Ticket(Screen(c, a.envelope, a.expected, a.now), a.consume, a.now, a.sink)
  }

  function Tickets(c: Config, run: seq<Attempt>): seq<Ticket> {
    seq(|run|, i requires 0 <= i < |run| => TicketOf(c, run[i]))
  }

  /** The identity of a passing envelope does not depend on the clock or on what the caller expects. */
  lemma ScreenedIdentity(c: Config, envelope: Json, e0: Expected, e1: Expected, t0: int, t1: int)
    requires Screen(c, envelope, e0, t0).Passed? && Screen(c, envelope, e1, t1).Passed?
    ensures Screen(c, envelope, e0, t0) == Screen(c, envelope, e1, t1)
  {
  }

  /** An envelope that was consumed is never valid again: not after its nonce is evicted from memory, not for a
      caller expecting something else, not at any later time. */
  lemma EnvelopeAcceptedOnce(c: Config, l: Ledger, run: seq<Attempt>, i: nat, j: nat)
    requires i < j < |run| && ConsumedAt(c.ttl, l, Tickets(c, run), i) && run[j].envelope == run[i].envelope
    ensures !OutcomeAt(c.ttl, l, Tickets(c, run), j).valid
  {
    var tickets := Tickets(c, run);
    if OutcomeAt(c.ttl, l, tickets, j).valid {
      ScreenedIdentity(c, run[i].envelope, run[i].expected, run[j].expected, run[i].now, run[j].now);
      EscalationConsumedOnce(c.ttl, l, tickets, i, j);
    }
  }

  // ---------------------------------------------------------------- what an audit failure undoes

  /** Some expired marks are gone from the front; everything else is as before. */
  predicate RolledBack(ttl: int, before: Ledger, after: Ledger, now: int) {
    && after.escalations == before.escalations
    && |after.nonces| <= |before.nonces|
    && var n := |before.nonces| - |after.nonces|;
       && after.nonces == before.nonces[n..]
       && forall i | 0 <= i < n :: now - before.nonces[i].t > ttl
  }

  /** A failed audit restores the consumed escalations exactly, and the nonces up to expired ones. */
  lemma AuditFailureRollsBack(ttl: int, l: Ledger, k: Ticket)
    requires k.sink.Fails? && k.consume
    ensures RolledBack(ttl, l, Settle(ttl, l, k).0, k.now) && !Settle(ttl, l, k).1.valid
  {
    EvictSuffix(l.nonces, k.now - ttl);
  }

  /** The next call is judged as if the failed one had not happened -- exactly unless it reuses, for an
      escalation not yet consumed, a nonce that the failed call evicted. */
  lemma JudgedAlike(ttl: int, before: Ledger, after: Ledger, since: int, k: Ticket)
    requires RolledBack(ttl, before, after, since)
    ensures Settle(ttl, before, k).1 == Settle(ttl, after, k).1 <==>
            !(&& k.screened.Passed? && k.screened.escalation !in before.escalations
              && Known(before.nonces, k.screened.nonce) && !Known(after.nonces, k.screened.nonce))
  {
    if k.screened.Passed? {
      SuffixKnowsLess(before.nonces, |before.nonces| - |after.nonces|, k.screened.nonce);
    }
  }

  /** The retry of the very envelope whose audit failed is accepted, as long as it is still in its window. */
  lemma RetryAccepted(c: Config, l: Ledger, failed: Attempt, retry: Attempt)
    requires failed.consume && failed.sink.Fails? && Settle(c.ttl, l, TicketOf(c, failed)).1.rule == "approval.audit_failed"
    requires TicketOf(c, failed).screened.Passed?
    requires retry.envelope == failed.envelope && retry.expected == failed.expected && !retry.sink.Fails?
    requires failed.now <= retry.now && retry.now - TicketOf(c, failed).screened.t <= c.ttl
    ensures Settle(c.ttl, Settle(c.ttl, l, TicketOf(c, failed)).0, TicketOf(c, retry)).1 == Outcome(true, "approval.ok")
  {
    StillInWindowStillPasses(c, retry.envelope, retry.expected, failed.now, retry.now);
    RetrySettles(c.ttl, l, TicketOf(c, failed), TicketOf(c, retry));
  }

  lemma RetrySettles(ttl: int, l: Ledger, failed: Ticket, retry: Ticket)
    requires failed.consume && failed.sink.Fails? && failed.screened.Passed? && Settle(ttl, l, failed).1.rule == "approval.audit_failed"
    requires retry.screened == failed.screened && !retry.sink.Fails?
    ensures Settle(ttl, Settle(ttl, l, failed).0, retry).1 == Outcome(true, "approval.ok")
  {
    AuditFailureRollsBack(ttl, l, failed);
    JudgedAlike(ttl, l, Settle(ttl, l, failed).0, failed.now, retry);
  }

  /** A later screening of a passing envelope differs only in the clock: it passes while in the window. */
  lemma StillInWindowStillPasses(c: Config, envelope: Json, e: Expected, t0: int, t1: int)
    requires Screen(c, envelope, e, t0).Passed? && t0 <= t1
    ensures Screen(c, envelope, e, t1).Passed? <==> t1 - Screen(c, envelope, e, t0).t <= c.ttl
    ensures Screen(c, envelope, e, t1).Passed? ==> Screen(c, envelope, e, t1) == Screen(c, envelope, e, t0)
  {
  }
}
