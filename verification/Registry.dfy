/** Provisioning tokens and the capability registry: axiomgate_kernel/provisioning.py and the second half of
    axiomgate_kernel/capability.py. */
module Provisioning {
  import opened Domain

  datatype TokenError = TokenRequired | TokenConsumed | SystemSealed | TokenMismatch

  class ProvisioningToken {
    const tokenId: string
    var consumed: bool

    constructor (tokenId: string)
      ensures this.tokenId == tokenId && !consumed
    {
      this.tokenId := tokenId;
      consumed := false;
    }

    ghost function View(): TokenView
      reads this
    {
      TokenView(tokenId, consumed)
    }

    method Consume() returns (ok: bool)
      modifies this
      ensures ok == !old(consumed) && consumed
    {
      ok := !consumed;
      consumed := true;
    }
  }

  datatype TokenView = TokenView(id: string, consumed: bool)

  /** require_token followed by bind_token: the error, if any. */
  function TokenRefused(token: Option<TokenView>, sealed: bool, bound: Option<string>): Option<TokenError> {
    if token.None? then Some(TokenRequired)
    else if token.value.consumed then Some(TokenConsumed)
    else if sealed then Some(SystemSealed)
    else if bound.Some? && bound.value != token.value.id then Some(TokenMismatch)
    else None
  }
}

module Registry {
  import opened Domain
  import opened Authorization
  import opened Provisioning

  datatype RegistryState = RegistryState(caps: seq<Capability>, sealed: bool, bound: Option<string>)

  datatype Op = Register(cap: Capability) | Seal | Revoke(id: string, when: int)

  datatype Error = Token(why: TokenError) | Invalid | UnknownCapability

  function IndexOf(caps: seq<Capability>, id: string): (r: Option<nat>)
    ensures r.Some? ==> r.value < |caps| && caps[r.value].id == id
    ensures r.None? ==> forall c | c in caps :: c.id != id
  {
    if caps == [] then None
    else if caps[0].id == id then Some(0)
    else
      var rest := IndexOf(caps[1..], id);
      if rest.None? then None else Some(rest.value + 1)
  }

  /** An ordered dictionary keyed by capability id: replaced in place, or appended. */
  function Put(caps: seq<Capability>, cap: Capability): seq<Capability> {
    var at := IndexOf(caps, cap.id);
    if at.Some? then caps[at.value := cap] else caps + [cap]
  }

  function GetCap(caps: seq<Capability>, id: string): Option<Capability> {
    var at := IndexOf(caps, id);
    if at.Some? then Some(caps[at.value]) else None
  }

  function ForPrincipal(caps: seq<Capability>, principal: string): seq<Capability> {
    if caps == [] then []
    else (if caps[0].principal == principal then [caps[0]] else []) + ForPrincipal(caps[1..], principal)
  }

  function ActiveFor(caps: seq<Capability>, principal: string, now: int): seq<Capability> {
    if caps == [] then []
    else (if caps[0].principal == principal && caps[0].Active(now) then [caps[0]] else []) + ActiveFor(caps[1..], principal, now)
  }

  function Refused(r: RegistryState, op: Op, token: Option<TokenView>): Option<Error> {
    if TokenRefused(token, r.sealed, r.bound).Some? then Some(Token(TokenRefused(token, r.sealed, r.bound).value))
    else
      match op
      case Register(cap) => if !cap.StructurallyValid() then Some(Invalid) else None
      case Seal => None
      case Revoke(id, _) => if IndexOf(r.caps, id).None? then Some(UnknownCapability) else None
  }

  /** A usable token is bound even when the operation then fails for another reason. */
  function After(r: RegistryState, op: Op, token: Option<TokenView>): RegistryState {
    if TokenRefused(token, r.sealed, r.bound).Some? then r
    else
      var b := r.(bound := Some(token.value.id));
      if Refused(r, op, token).Some? then b
      else
        match op
        case Register(cap) => b.(caps := Put(r.caps, cap))
        case Seal => b.(sealed := true)
        case Revoke(id, when) => b.(caps := Put(r.caps, GetCap(r.caps, id).value.(revokedAt := Some(when))))
  }

  class CapabilityRegistry {
    var caps: seq<Capability>
    var sealed: bool
    var bound: Option<string>

    ghost function State(): RegistryState
      reads this
    {
      RegistryState(caps, sealed, bound)
    }

    constructor (bootstrap: ProvisioningToken?)
      ensures State() == RegistryState([], false, if bootstrap == null then None else Some(bootstrap.tokenId))
    {
      caps, sealed := [], false;
      bound := if bootstrap == null then None else Some(bootstrap.tokenId);
    }

    static ghost function ViewOf(token: ProvisioningToken?): Option<TokenView>
      reads token
    {
      if token == null then None else Some(token.View())
    }

    method CheckToken(token: ProvisioningToken?) returns (error: Option<TokenError>)
      modifies this`bound
      ensures error == TokenRefused(ViewOf(token), sealed, old(bound))
      ensures bound == if error.Some? then old(bound) else Some(token.tokenId)
    {
      if token == null { return Some(TokenRequired); }
      if token.consumed { return Some(TokenConsumed); }
      if sealed { return Some(SystemSealed); }
      if bound.Some? && bound.value != token.tokenId { return Some(TokenMismatch); }
      bound := Some(token.tokenId);
      return None;
    }

    method RegisterCapability(cap: Capability, token: ProvisioningToken?) returns (error: Option<Error>)
      modifies this
      ensures error == Refused(old(State()), Register(cap), old(ViewOf(token)))
      ensures State() == After(old(State()), Register(cap), old(ViewOf(token)))
    {
      var why := CheckToken(token);
      if why.Some? { return Some(Token(why.value)); }
      if !cap.StructurallyValid() { return Some(Invalid); }
      caps := Put(caps, cap);
      return None;
    }

    method SealRegistry(token: ProvisioningToken?) returns (error: Option<Error>)
      modifies this, token
      ensures error == Refused(old(State()), Seal, old(ViewOf(token)))
      ensures State() == After(old(State()), Seal, old(ViewOf(token)))
      ensures token != null ==> token.consumed == (error.None? || old(token.consumed))
    {
      var why := CheckToken(token);
      if why.Some? { return Some(Token(why.value)); }
      sealed := true;
      var ok := token.Consume();
      return None;
    }

    method RevokeCapability(id: string, token: ProvisioningToken?, when: int) returns (error: Option<Error>)
      modifies this
      ensures error == Refused(old(State()), Revoke(id, when), old(ViewOf(token)))
      ensures State() == After(old(State()), Revoke(id, when), old(ViewOf(token)))
    {
      var why := CheckToken(token);
      if why.Some? { return Some(Token(why.value)); }
      var at := IndexOf(caps, id);
      if at.None? { return Some(UnknownCapability); }
      var cap := caps[at.value];
      caps := Put(caps, Capability(cap.id, cap.principal, cap.role, cap.domains, cap.actions, cap.ceiling, cap.issuedBy,
                                   cap.expiresAt, cap.transferable, cap.delegationDepth, Some(when)));
      return None;
    }
  }

  // ---------------------------------------------------------------- runs of the registry

  datatype Call = Call(op: Op, token: Option<TokenView>)

  function Run(r: RegistryState, calls: seq<Call>): RegistryState
    decreases |calls|
  {
    if calls == [] then r else Run(After(r, calls[0].op, calls[0].token), calls[1..])
  }

  /** After seal nothing changes the registry again, whatever is called with whatever token. */
  lemma {:induction false} SealedIsFrozen(r: RegistryState, calls: seq<Call>)
    requires r.sealed
    ensures Run(r, calls) == r
    decreases |calls|
  {
    if calls != [] {
      SealedIsFrozen(r, calls[1..]);
    }
  }

  /** Some registered capability allows the request. */
  ghost predicate Authorized(r: RegistryState, ask: Ask, s: Situation) {
    exists cap :: cap in r.caps && CheckCapability(Some(cap), ask, false, s).decision == Allow
  }

  /** So from the moment of sealing, what is authorised only shrinks as the clock advances. */
  lemma SealedAuthorityOnlyShrinks(r: RegistryState, calls: seq<Call>, ask: Ask, s: Situation, later: int)
    requires r.sealed && s.now <= later
    requires Authorized(Run(r, calls), ask, s.(now := later))
    ensures Authorized(r, ask, s)
  {
    SealedIsFrozen(r, calls);
    var cap :| cap in r.caps && CheckCapability(Some(cap), ask, false, s.(now := later)).decision == Allow;
    ClockOnlyShrinks(Some(cap), ask, false, s, later);
  }

  predicate Sound(r: RegistryState) {
    && (forall cap | cap in r.caps :: cap.StructurallyValid())
    && (forall i, j | 0 <= i < j < |r.caps| :: r.caps[i].id != r.caps[j].id)
  }

  lemma PutKeepsSound(caps: seq<Capability>, cap: Capability, sealed: bool, bound: Option<string>)
    requires Sound(RegistryState(caps, sealed, bound)) && cap.StructurallyValid()
    ensures Sound(RegistryState(Put(caps, cap), sealed, bound))
  {
  }

  lemma AfterKeepsSound(r: RegistryState, c: Call)
    requires Sound(r)
    ensures Sound(After(r, c.op, c.token))
  {
    if Refused(r, c.op, c.token).None? {
      match c.op
      case Register(cap) => PutKeepsSound(r.caps, cap, r.sealed, r.bound);
      case Seal =>
      case Revoke(id, when) =>
        var cap := GetCap(r.caps, id).value;
        assert cap in r.caps;
        PutKeepsSound(r.caps, cap.(revokedAt := Some(when)), r.sealed, r.bound);
    }
  }

  /** Whatever sequence of calls built it, the registry holds only structurally valid capabilities, one per id. */
  lemma {:induction false} RegistryStaysSound(r: RegistryState, calls: seq<Call>)
    requires Sound(r)
    ensures Sound(Run(r, calls))
    decreases |calls|
  {
    if calls != [] {
      AfterKeepsSound(r, calls[0]);
      RegistryStaysSound(After(r, calls[0].op, calls[0].token), calls[1..]);
    }
  }

  /** Once a token is bound, calls with any other token, or none, change nothing. */
  lemma {:induction false} OnlyTheBoundTokenActs(r: RegistryState, calls: seq<Call>)
    requires r.bound.Some? && forall c | c in calls :: c.token.Some? ==> Some(c.token.value.id) != r.bound
    ensures Run(r, calls) == r
    decreases |calls|
  {
    if calls != [] {
      assert calls[0] in calls;
      OnlyTheBoundTokenActs(r, calls[1..]);
    }
  }

  lemma {:induction false} LookupsComeFromTheRegistry(caps: seq<Capability>, principal: string, now: int, cap: Capability)
    ensures cap in ForPrincipal(caps, principal) <==> cap in caps && cap.principal == principal
    ensures cap in ActiveFor(caps, principal, now) <==> cap in caps && cap.principal == principal && cap.Active(now)
  {
    if caps != [] {
      LookupsComeFromTheRegistry(caps[1..], principal, now, cap);
    }
  }

  // ---------------------------------------------------------------- what each operation brings about

  /** The token may act: present, not consumed, the registry not sealed, and bound to no other token. */
  predicate MayAct(r: RegistryState, token: Option<TokenView>) {
    token.Some? && !token.value.consumed && !r.sealed && (r.bound.None? || r.bound.value == token.value.id)
  }

  predicate Registered(caps: seq<Capability>, id: string) {
    exists cap :: cap in caps && cap.id == id
  }

  lemma {:induction false} FoundExactlyWhenRegistered(caps: seq<Capability>, id: string)
    ensures GetCap(caps, id).Some? <==> Registered(caps, id)
    ensures GetCap(caps, id).Some? ==> GetCap(caps, id).value in caps && GetCap(caps, id).value.id == id
  {
    if caps != [] {
      FoundExactlyWhenRegistered(caps[1..], id);
      assert caps == [caps[0]] + caps[1..];
    }
  }

  /** Exactly which calls are accepted. */
  lemma AcceptedExactlyWhen(r: RegistryState, op: Op, token: Option<TokenView>)
    ensures Refused(r, op, token).None? <==>
            MayAct(r, token) &&
            match op
            case Register(cap) =>
              && cap.issuedBy == "Owner" && !cap.transferable && cap.delegationDepth == 1
              && (cap.role == RDec ==> cap.principal == "owner")
            case Seal => true
            case Revoke(id, _) => Registered(r.caps, id)
  {
    if op.Revoke? { FoundExactlyWhenRegistered(r.caps, op.id); }
  }

  /** Why the others are refused: no token, a consumed one, a sealed registry, somebody else's token -- in this order. */
  lemma TokenRefusalTold(r: RegistryState, op: Op, token: Option<TokenView>)
    ensures token.None? ==> Refused(r, op, token) == Some(Token(TokenRequired))
    ensures token.Some? && token.value.consumed ==> Refused(r, op, token) == Some(Token(TokenConsumed))
    ensures token.Some? && !token.value.consumed && r.sealed ==> Refused(r, op, token) == Some(Token(SystemSealed))
    ensures token.Some? && !token.value.consumed && !r.sealed && r.bound.Some? && r.bound.value != token.value.id ==>
              Refused(r, op, token) == Some(Token(TokenMismatch))
  {
  }

  /** An entry put into the dictionary is what its id then finds; every other id finds what it did. */
  lemma {:induction false} PutReadsBack(caps: seq<Capability>, cap: Capability, id: string)
    ensures GetCap(Put(caps, cap), id) == if id == cap.id then Some(cap) else GetCap(caps, id)
  {
    if caps == [] {
      assert [] + [cap] == [cap];
    } else if caps[0].id == cap.id {
      assert Put(caps, cap) == [cap] + caps[1..];
    } else {
      PutReadsBack(caps[1..], cap, id);
      assert Put(caps, cap) == [caps[0]] + Put(caps[1..], cap);
    }
  }

  /** An accepted registration: the id finds exactly this capability, every other id what it found before. */
  lemma RegisterTakesEffect(r: RegistryState, cap: Capability, token: Option<TokenView>, id: string)
    requires Refused(r, Register(cap), token).None?
    ensures GetCap(After(r, Register(cap), token).caps, cap.id) == Some(cap)
    ensures id != cap.id ==> GetCap(After(r, Register(cap), token).caps, id) == GetCap(r.caps, id)
    ensures !After(r, Register(cap), token).sealed
  {
    PutReadsBack(r.caps, cap, cap.id);
    PutReadsBack(r.caps, cap, id);
  }

  /** Under a revoked capability nothing is ever allowed, whoever asks, whenever, and whatever stands in. */
  lemma RevokedNeverAllows(cap: Capability, ask: Ask, skip: bool, s: Situation)
    requires cap.revokedAt.Some?
    ensures CheckCapability(Some(cap), ask, skip, s).decision == Refuse && !cap.Active(s.now)
  {
    AllowExactlyWhen(Some(cap), ask, skip, s);
    OwnerMandatoryExactlyWhen(Some(cap), ask, skip, s);
  }

  /** An accepted revocation: the capability is revoked as of the given time and otherwise as it was, every other one
      is untouched, and nothing is allowed under it any more. */
  lemma RevokeTakesEffect(r: RegistryState, id: string, when: int, token: Option<TokenView>, other: string)
    requires Refused(r, Revoke(id, when), token).None?
    ensures var before, after := GetCap(r.caps, id), GetCap(After(r, Revoke(id, when), token).caps, id);
            && before.Some? && after == Some(before.value.(revokedAt := Some(when)))
            && forall ask, skip, s :: CheckCapability(after, ask, skip, s).decision == Refuse
    ensures other != id ==> GetCap(After(r, Revoke(id, when), token).caps, other) == GetCap(r.caps, other)
    ensures !After(r, Revoke(id, when), token).sealed
  {
    FoundExactlyWhenRegistered(r.caps, id);
    var cap := GetCap(r.caps, id).value.(revokedAt := Some(when));
    PutReadsBack(r.caps, cap, id);
    PutReadsBack(r.caps, cap, other);
    forall ask, skip, s ensures CheckCapability(Some(cap), ask, skip, s).decision == Refuse {
      RevokedNeverAllows(cap, ask, skip, s);
    }
  }

  predicate RevokedIn(r: RegistryState, id: string) {
    GetCap(r.caps, id).Some? && GetCap(r.caps, id).value.revokedAt.Some?
  }

  lemma StaysRevoked(r: RegistryState, c: Call, id: string)
    requires RevokedIn(r, id) && !(c.op.Register? && c.op.cap.id == id)
    ensures RevokedIn(After(r, c.op, c.token), id)
  {
    if Refused(r, c.op, c.token).None? {
      match c.op
      case Register(cap) => RegisterTakesEffect(r, cap, c.token, id);
      case Seal =>
      case Revoke(one, when) => RevokeTakesEffect(r, one, when, c.token, id);
    }
  }

  /** A revoked capability stays revoked through any run, until its id is registered again. */
  lemma {:induction false} RevocationLasts(r: RegistryState, calls: seq<Call>, id: string)
    requires RevokedIn(r, id) && forall c | c in calls :: !(c.op.Register? && c.op.cap.id == id)
    ensures RevokedIn(Run(r, calls), id)
    decreases |calls|
  {
    if calls != [] {
      assert calls[0] in calls;
      StaysRevoked(r, calls[0], id);
      RevocationLasts(After(r, calls[0].op, calls[0].token), calls[1..], id);
    }
  }

  /** An accepted seal: the capabilities are as they were, and from then on every call is refused, with any token. */
  lemma SealTakesEffect(r: RegistryState, token: Option<TokenView>, calls: seq<Call>, later: Call)
    requires Refused(r, Seal, token).None?
    ensures var sealed := After(r, Seal, token);
            && sealed.sealed && sealed.caps == r.caps
            && Refused(Run(sealed, calls), later.op, later.token).Some?
            && (later.token.Some? && !later.token.value.consumed ==>
                  Refused(Run(sealed, calls), later.op, later.token) == Some(Token(SystemSealed)))
  {
    SealedIsFrozen(After(r, Seal, token), calls);
  }

  /** Any use of a usable token binds the registry to it, even one that is refused for another reason. */
  lemma UsableTokenIsBound(r: RegistryState, op: Op, token: Option<TokenView>)
    ensures After(r, op, token).bound == if MayAct(r, token) then Some(token.value.id) else r.bound
  {
  }

  /** A refused call changes no capability and does not seal. */
  lemma RefusedChangesNothing(r: RegistryState, op: Op, token: Option<TokenView>)
    requires Refused(r, op, token).Some?
    ensures After(r, op, token).caps == r.caps && After(r, op, token).sealed == r.sealed
  {
  }
}
