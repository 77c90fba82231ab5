/** The approval signer of axiomgate_kernel/approval.py, and what the verifier makes of the envelopes it writes. */
module ApprovalSigning {
  import opened Domain
  import opened JsonValues
  import opened Authentication
  import opened Approval
  import Text

  /** The signer's key as an ideal signature scheme over message bytes, with the hex writer and the key's name. */
  datatype Signer = Signer(sign: string -> string, toHex: string -> string, keyId: string)
  {
    /** The verifier of c holds the public half of this key, and reads hex and strings as they are written. */
    ghost predicate Matches(c: Config) {
      && (forall m :: c.verifies(sign(m), m) && |sign(m)| == 64)
      && (forall b :: c.fromHex(toHex(b)) == Some(b) && (b != "" ==> toHex(b) != ""))
      && (forall s :: c.str(JStr(s)) == s)
    }
  }

  const REQUIRED := {"escalation_id", "tool", "args", "risk", "request_session_id", "approver_id", "decision", "timestamp", "nonce"}

  /** The payload that is signed: every field as text, but the arguments, which stay an object. */
  function PayloadOf(c: Config, signer: Signer, d: Fields): Fields
    requires REQUIRED <= d.Keys
  {
    map["escalation_id" := JStr(c.str(d["escalation_id"])),
        "tool" := JStr(c.str(d["tool"])),
        "args" := if d["args"].JObj? then d["args"] else JObj(map[]),
        "risk" := JStr(c.str(d["risk"])),
        "request_session_id" := JStr(c.str(d["request_session_id"])),
        "approver_id" := JStr(c.str(d["approver_id"])),
        "decision" := JStr(Upper(c.str(d["decision"]))),
        "timestamp" := JStr(c.str(d["timestamp"])),
        "nonce" := JStr(c.str(d["nonce"])),
        "key_id" := JStr(if "key_id" in d then c.str(d["key_id"]) else signer.keyId)]
  }

  /** sign_approval. None: a required field is missing, or the payload has no canonical bytes, and it raises. */
  function SignApproval(c: Config, signer: Signer, d: Fields): Option<Fields> {
    if !(REQUIRED <= d.Keys) then None
    else
      var payload := PayloadOf(c, signer, d);
      if c.bytesOf(payload).None? then None
      else
        Some(map["status" := JStr(if payload["decision"] == JStr("APPROVE") then "APPROVED" else "DENIED"),
                 "algorithm" := JStr("Ed25519"),
                 "key_id" := payload["key_id"],
                 "payload" := JObj(payload),
                 "signature" := JStr(signer.toHex(signer.sign(c.bytesOf(payload).value)))])
  }

  lemma UpperOnce(s: string)
    ensures Upper(Upper(s)) == Upper(s)
  {
  }

  lemma SignedIsEnveloped(c: Config, signer: Signer, d: Fields)
    requires signer.Matches(c) && SignApproval(c, signer, d).Some?
    ensures var envelope := SignApproval(c, signer, d).value;
            && Enveloped(c, envelope) && envelope["payload"] == JObj(PayloadOf(c, signer, d))
            && Signed(c, envelope, PayloadOf(c, signer, d))
  {
    var m := c.bytesOf(PayloadOf(c, signer, d)).value;
    assert c.verifies(signer.sign(m), m) && |signer.sign(m)| == 64;
  }

  /** The approval says yes, in the Owner's name, to what the caller expects. */
  predicate ApprovesFor(c: Config, d: Fields, e: Expected)
    requires REQUIRED <= d.Keys
  {
    var args := if d["args"].JObj? then d["args"].fields else map[];
    && Upper(c.str(d["decision"])) == "APPROVE" && c.str(d["approver_id"]) == c.owner
    && c.str(d["escalation_id"]) != "" && (e.escalation == "" || e.escalation == c.str(d["escalation_id"]))
    && (e.tool == "" || e.tool == c.str(d["tool"])) && (e.risk == "" || e.risk == c.str(d["risk"]))
    && (e.session == "" || e.session == c.str(d["request_session_id"]))
    && (e.args.Some? ==> c.bytesOf(e.args.value).Some? && c.bytesOf(args) == c.bytesOf(e.args.value))
  }

  lemma SignedText(c: Config, signer: Signer, d: Fields, key: string)
    requires signer.Matches(c) && REQUIRED <= d.Keys && key in REQUIRED && key != "args"
    ensures c.Str(PayloadOf(c, signer, d), key) == if key == "decision" then Upper(c.str(d[key])) else c.str(d[key])
  {
  }

  /** The payload reads as the approval it was made from. */
  predicate Reads(c: Config, payload: Fields, d: Fields)
    requires REQUIRED <= d.Keys
  {
    && c.Str(payload, "decision") == Upper(c.str(d["decision"])) && c.Str(payload, "approver_id") == c.str(d["approver_id"])
    && c.Str(payload, "escalation_id") == c.str(d["escalation_id"]) && c.Str(payload, "tool") == c.str(d["tool"])
    && c.Str(payload, "risk") == c.str(d["risk"]) && c.Str(payload, "request_session_id") == c.str(d["request_session_id"])
    && c.Str(payload, "nonce") == c.str(d["nonce"])
    && Get(payload, "args") == if d["args"].JObj? then d["args"] else JObj(map[])
  }

  lemma SignedReads(c: Config, signer: Signer, d: Fields)
    requires signer.Matches(c) && REQUIRED <= d.Keys
    ensures Reads(c, PayloadOf(c, signer, d), d)
  {
    SignedText(c, signer, d, "decision");
    SignedText(c, signer, d, "approver_id");
    SignedText(c, signer, d, "escalation_id");
    SignedText(c, signer, d, "tool");
    SignedText(c, signer, d, "risk");
    SignedText(c, signer, d, "request_session_id");
    SignedText(c, signer, d, "nonce");
  }

  lemma ReadsBinds(c: Config, payload: Fields, d: Fields, e: Expected)
    requires REQUIRED <= d.Keys && Reads(c, payload, d)
    ensures Binds(c, payload, e) <==> ApprovesFor(c, d, e)
  {
    UpperOnce(c.str(d["decision"]));
  }

  /** Round trip: an envelope that the signer writes passes its verifier exactly when the approval says yes, in the
      Owner's name, to what the caller expects, was made at an instant in the window, and names a nonce; and it then
      counts as this escalation, this nonce and this instant. */
  lemma SignedPassesExactlyWhen(c: Config, signer: Signer, d: Fields, e: Expected, now: int)
    requires signer.Matches(c) && SignApproval(c, signer, d).Some?
    ensures var screened, stamp := Screen(c, JObj(SignApproval(c, signer, d).value), e, now), c.str(d["timestamp"]);
            && (screened.Passed? <==>
                  && ApprovesFor(c, d, e) && Text.Strip(c.str(d["nonce"])) != ""
                  && stamp != "" && c.iso(stamp).At? && now - c.iso(stamp).t <= c.ttl && c.iso(stamp).t <= now + 5_000_000)
            && (screened.Passed? ==>
                  screened == Passed(c.str(d["escalation_id"]), Text.Strip(c.str(d["nonce"])), c.iso(stamp).t))
  {
    var envelope, payload := SignApproval(c, signer, d).value, PayloadOf(c, signer, d);
    SignedIsEnveloped(c, signer, d);
    SignedReads(c, signer, d);
    ReadsBinds(c, payload, d, e);
    PassesExactlyWhen(c, JObj(envelope), e, now);
    if c.iso(c.str(d["timestamp"])).At? {
      TimedSigned(c, envelope, payload, e, now, c.iso(c.str(d["timestamp"])).t);
    }
  }

  lemma TimedSigned(c: Config, envelope: Fields, payload: Fields, e: Expected, now: int, t: int)
    requires Enveloped(c, envelope) && envelope["payload"] == JObj(payload) && Signed(c, envelope, payload)
    ensures Genuine(c, JObj(envelope), e, now, t) <==>
            Binds(c, payload, e) && TimelyAt(c, payload, now, t) && NonceOf(c, payload) != ""
  {
  }
}
