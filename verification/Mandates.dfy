/** Mandates and delegation, axiomgate_kernel/principal_context.py: what a mandate string means, and what a
    subagent inherits. */
module Mandates {
  import opened Domain
  import Text

  datatype Scope = ReadOnly | InspectOnly | ProposeScope | VerifyScope | ExecuteScope | Full
  {
    function Name(): string {
      match this
      case ReadOnly => "read-only"
      case InspectOnly => "inspect"
      case ProposeScope => "propose"
      case VerifyScope => "verify"
      case ExecuteScope => "execute"
      case Full => "full"
    }

    /** MANDATE_SCOPES. COMMIT is never delegated. */
    function Actions(): set<Action> {
      match this
      case ReadOnly => {Inspect}
      case InspectOnly => {Inspect}
      case ProposeScope => {Inspect, Propose}
      case VerifyScope => {Inspect, Propose, Verify}
      case ExecuteScope => {Inspect, Propose, Verify, Execute}
      case Full => {Inspect, Propose, Verify, Execute}
    }

    /** MANDATE_RISK_CEILING. */
    function Ceiling(): Risk {
      match this
      case ReadOnly => Low
      case InspectOnly => Low
      case ProposeScope => Low
      case VerifyScope => Medium
      case ExecuteScope => Medium
      case Full => High
    }
  }

  function ScopeNamed(name: string): Option<Scope> {
    if name == "read-only" then Some(ReadOnly)
    else if name == "inspect" then Some(InspectOnly)
    else if name == "propose" then Some(ProposeScope)
    else if name == "verify" then Some(VerifyScope)
    else if name == "execute" then Some(ExecuteScope)
    else if name == "full" then Some(Full)
    else None
  }

  datatype Mandate = Mandate(id: string, scope: Scope, expires: Option<int>, parentId: Option<string>)
  {
    predicate Valid(now: int) {
      expires.Some? ==> expires.value >= now
    }

    predicate SubsetOf(other: Mandate, now: int) {
      other.Valid(now) && scope.Actions() <= other.scope.Actions() && scope.Ceiling().Rank() <= other.scope.Ceiling().Rank()
    }

    predicate Allows(action: Action, risk: Risk, now: int) {
      Valid(now) && action in scope.Actions() && !risk.Exceeds(scope.Ceiling())
    }
  }

  /** The two library calls parse_mandate makes: the timestamp reader (a naive value is taken as UTC), and the
      eight hex digits of the string's SHA-256. */
  datatype Reader = Reader(instant: string -> Option<int>, digest: string -> string)

  function LowerChar(c: char): char {
    if 'A' <= c <= 'Z' then c - 'A' + 'a' else c
  }

  function Lower(s: string): string {
    if s == [] then [] else [LowerChar(s[0])] + Lower(s[1..])
  }

  /** Index of the first occurrence of sep in s. */
  function Find(s: string, sep: string): (r: Option<nat>)
    ensures r.Some? ==> r.value + |sep| <= |s| && s[r.value..r.value + |sep|] == sep
  {
    if sep <= s then Some(0)
    else if s == [] then None
    else
      var rest := Find(s[1..], sep);
      if rest.None? then None else Some(rest.value + 1)
  }

  const EXPIRES := "expires:"
  const PARENT := ":parent:"

  function ParseTail(r: Reader, mandate: string, scope: Scope, tail: string): Option<Mandate> {
    var cut := Find(tail, PARENT);
    var stamp := if cut.Some? then tail[..cut.value] else tail;
    var parent := if cut.Some? then Some(tail[cut.value + |PARENT|..]) else None;
    if parent.Some? && (parent.value == "" || ':' in parent.value) then None
    else if r.instant(stamp).None? then None
    else Some(Mandate("mandate-" + scope.Name() + "-" + r.digest(mandate), scope, r.instant(stamp), parent))
  }

  function Parse(r: Reader, mandate: string): Option<Mandate> {
    var colon := Find(mandate, ":");
    var head := if colon.Some? then mandate[..colon.value] else mandate;
    var scope := ScopeNamed(Lower(Text.Strip(head)));
    if mandate == "" || scope.None? then None
    else if colon.None? then
      Some(Mandate("mandate-" + scope.value.Name() + "-" + r.digest(mandate), scope.value, None, None))
    else
      var rest := mandate[colon.value + 1..];
      if !(EXPIRES <= rest) then None else ParseTail(r, mandate, scope.value, rest[|EXPIRES|..])
  }

  // ---------------------------------------------------------------- what parsing promises

  lemma {:induction false} FindsFirst(s: string, sep: string, n: nat)
    requires n + |sep| <= |s| && s[n..n + |sep|] == sep
    requires forall k | 0 <= k < n :: !(sep <= s[k..])
    ensures Find(s, sep) == Some(n)
  {
    if n == 0 {
      assert sep <= s;
    } else {
      assert s[0..] == s;
      assert !(sep <= s);
      assert s[1..][n - 1..n - 1 + |sep|] == s[n..n + |sep|];
      forall k | 0 <= k < n - 1 ensures !(sep <= s[1..][k..]) {
        assert s[1..][k..] == s[k + 1..];
      }
      FindsFirst(s[1..], sep, n - 1);
    }
  }

  lemma {:induction false} FindsNothing(s: string, sep: string)
    requires forall k | 0 <= k <= |s| :: !(sep <= s[k..])
    ensures Find(s, sep) == None
  {
    assert s[0..] == s;
    if s != [] {
      forall k | 0 <= k <= |s[1..]| ensures !(sep <= s[1..][k..]) {
        assert s[1..][k..] == s[k + 1..];
      }
      FindsNothing(s[1..], sep);
    }
  }

  /** A tail is never silently ignored: a string with anything after its scope either fails to parse or carries
      an expiry. */
  lemma TailNeverIgnored(r: Reader, mandate: string)
    requires Parse(r, mandate).Some? && ':' in mandate
    ensures Parse(r, mandate).value.expires.Some?
  {
    var i :| 0 <= i < |mandate| && mandate[i] == ':';
    if Find(mandate, ":").None? {
      FindColon(mandate, i);
    }
  }

  lemma {:induction false} FindColon(s: string, i: nat)
    requires i < |s| && s[i] == ':'
    ensures Find(s, ":").Some?
  {
    if !(":" <= s) {
      assert i > 0 && s[1..][i - 1] == ':';
      FindColon(s[1..], i - 1);
    }
  }

  lemma HeadFound(name: string, rest: string)
    requires ':' !in name
    ensures var text := name + ":" + rest;
            Find(text, ":") == Some(|name|) && text[..|name|] == name && text[|name| + 1..] == rest
  {
    var text := name + ":" + rest;
    assert text[|name|..|name| + 1] == ":";
    forall k | 0 <= k < |name| ensures !(":" <= text[k..]) {
      assert text[k..][0] == name[k];
    }
    FindsFirst(text, ":", |name|);
  }

  lemma {:induction false} LowerKeeps(s: string)
    requires forall i | 0 <= i < |s| :: !('A' <= s[i] <= 'Z')
    ensures Lower(s) == s
  {
    if s != [] {
      LowerKeeps(s[1..]);
    }
  }

  lemma NamesDistinct(scope: Scope)
    ensures ScopeNamed(scope.Name()) == Some(scope)
  {
  }

  /** Scope names are lower-case words without blanks or colons. */
  lemma NamesPlain(scope: Scope)
    ensures scope.Name() != ""
    ensures forall i | 0 <= i < |scope.Name()| :: var c := scope.Name()[i]; c == '-' || 'a' <= c <= 'z'
  {
  }

  lemma ScopeNamesRead(scope: Scope)
    ensures Lower(Text.Strip(scope.Name())) == scope.Name()
    ensures scope.Name() != "" && ':' !in scope.Name()
  {
    var name := scope.Name();
    NamesDistinct(scope);
    NamesPlain(scope);
    assert !Text.IsSpace(name[0]) && !Text.IsSpace(name[|name| - 1]);
    assert Text.Strip(name) == name;
    LowerKeeps(name);
  }

  lemma {:induction false} FoundIsFirst(s: string, sep: string)
    ensures Find(s, sep).Some? ==> forall k | 0 <= k < Find(s, sep).value :: !(sep <= s[k..])
    ensures Find(s, sep).None? ==> forall k | 0 <= k <= |s| :: !(sep <= s[k..])
  {
    assert s[0..] == s;
    if !(sep <= s) && s != [] {
      FoundIsFirst(s[1..], sep);
      assert forall k | 0 < k <= |s| :: s[k..] == s[1..][k - 1..];
    }
  }

  /** A stamp that can be told from what follows: it holds no ":parent:", and the one after it is the first. */
  predicate Delimited(stamp: string) {
    && (forall k | 0 <= k <= |stamp| :: !(PARENT <= stamp[k..]))
    && !(|stamp| >= 7 && stamp[|stamp| - 7..] == ":parent")
  }

  lemma DelimitedFound(stamp: string, parent: string)
    requires Delimited(stamp)
    ensures var tail := stamp + PARENT + parent;
            Find(tail, PARENT) == Some(|stamp|) && tail[..|stamp|] == stamp && tail[|stamp| + |PARENT|..] == parent
  {
    var tail := stamp + PARENT + parent;
    assert tail[|stamp|..|stamp| + |PARENT|] == PARENT;
    forall k | 0 <= k < |stamp| ensures !(PARENT <= tail[k..]) {
      var gap := |stamp| - k;
      if gap >= 8 {
        assert tail[k..][..8] == stamp[k..][..8];
      } else if gap == 7 {
        assert tail[k..][..7] == stamp[k..];
      } else {
        assert tail[k..][gap] == ':' && PARENT[gap] != ':';
      }
    }
    FindsFirst(tail, PARENT, |stamp|);
  }

  /** The spelling of a mandate: its scope's name in any case and with blanks around it, alone or followed by
      ":expires:" and a readable stamp, alone or followed by ":parent:" and a name without colons. */
  predicate Spelled(r: Reader, mandate: string, head: string, scope: Scope, stamp: Option<string>, parent: Option<string>) {
    && ':' !in head && Lower(Text.Strip(head)) == scope.Name()
    && (stamp.None? ==> parent.None? && mandate == head)
    && (stamp.Some? && parent.None? ==>
          && r.instant(stamp.value).Some? && (forall k | 0 <= k <= |stamp.value| :: !(PARENT <= stamp.value[k..]))
          && mandate == head + ":" + (EXPIRES + stamp.value))
    && (stamp.Some? && parent.Some? ==>
          && r.instant(stamp.value).Some? && Delimited(stamp.value) && parent.value != "" && ':' !in parent.value
          && mandate == head + ":" + (EXPIRES + (stamp.value + PARENT + parent.value)))
  }

  /** What a spelling denotes. */
  predicate Denotes(r: Reader, mandate: string, scope: Scope, expires: Option<int>, parent: Option<string>) {
    Parse(r, mandate) == Some(Mandate("mandate-" + scope.Name() + "-" + r.digest(mandate), scope, expires, parent))
  }

  lemma HeadAlone(head: string)
    requires ':' !in head
    ensures Find(head, ":").None?
  {
    forall k | 0 <= k <= |head| ensures !(":" <= head[k..]) {
      if k < |head| { assert head[k..][0] == head[k]; }
    }
    FindsNothing(head, ":");
  }

  lemma NameIsNamed(name: string, scope: Scope)
    ensures ScopeNamed(name) == Some(scope) <==> name == scope.Name()
  {
    NamesDistinct(scope);
  }

  lemma ParseHeadAndTail(r: Reader, head: string, scope: Scope, tail: string)
    requires ':' !in head && Lower(Text.Strip(head)) == scope.Name()
    ensures var mandate := head + ":" + (EXPIRES + tail); Parse(r, mandate) == ParseTail(r, mandate, scope, tail)
  {
    var rest := EXPIRES + tail;
    NameIsNamed(Lower(Text.Strip(head)), scope);
    HeadFound(head, rest);
    assert rest[|EXPIRES|..] == tail;
  }

  lemma ParseHeadAlone(r: Reader, head: string, scope: Scope)
    requires ':' !in head && Lower(Text.Strip(head)) == scope.Name()
    ensures Denotes(r, head, scope, None, None)
  {
    NameIsNamed(Lower(Text.Strip(head)), scope);
    NamesPlain(scope);
    HeadAlone(head);
  }

  lemma SpelledParses(r: Reader, mandate: string, head: string, scope: Scope, stamp: Option<string>, parent: Option<string>)
    requires Spelled(r, mandate, head, scope, stamp, parent)
    ensures Denotes(r, mandate, scope, if stamp.None? then None else r.instant(stamp.value), parent)
  {
    if stamp.None? {
      ParseHeadAlone(r, head, scope);
    } else if parent.None? {
      ParseHeadAndTail(r, head, scope, stamp.value);
      FindsNothing(stamp.value, PARENT);
    } else {
      ParseHeadAndTail(r, head, scope, stamp.value + PARENT + parent.value);
      DelimitedFound(stamp.value, parent.value);
    }
  }

  /** The part before the first colon names the scope, and holds no colon itself. */
  lemma ParsedHead(r: Reader, mandate: string) returns (head: string)
    requires Parse(r, mandate).Some?
    ensures ':' !in head && Lower(Text.Strip(head)) == Parse(r, mandate).value.scope.Name()
    ensures if Find(mandate, ":").None? then head == mandate
            else head == mandate[..Find(mandate, ":").value] && mandate == head + ":" + mandate[Find(mandate, ":").value + 1..]
  {
    var colon := Find(mandate, ":");
    FoundIsFirst(mandate, ":");
    head := if colon.Some? then mandate[..colon.value] else mandate;
    ParsedScopeIsNamed(r, mandate);
    forall i | 0 <= i < |head| ensures head[i] != ':' {
      assert mandate[i..][0] == head[i];
    }
  }

  lemma ParsedTail(r: Reader, mandate: string, scope: Scope, tail: string) returns (stamp: string)
    requires ParseTail(r, mandate, scope, tail).Some?
    ensures var m := ParseTail(r, mandate, scope, tail).value;
            && r.instant(stamp).Some? && m.expires == r.instant(stamp)
            && (m.parentId.None? ==> tail == stamp && forall k | 0 <= k <= |stamp| :: !(PARENT <= stamp[k..]))
            && (m.parentId.Some? ==> tail == stamp + PARENT + m.parentId.value && Delimited(stamp)
                                     && m.parentId.value != "" && ':' !in m.parentId.value)
  {
    var cut := Find(tail, PARENT);
    FoundIsFirst(tail, PARENT);
    stamp := if cut.Some? then tail[..cut.value] else tail;
    if cut.Some? { CutIsDelimited(tail, cut.value); }
  }

  lemma ParsedIsSpelled(r: Reader, mandate: string) returns (head: string, stamp: Option<string>)
    requires Parse(r, mandate).Some?
    ensures var m := Parse(r, mandate).value;
            && Spelled(r, mandate, head, m.scope, stamp, m.parentId)
            && m.expires == if stamp.None? then None else r.instant(stamp.value)
  {
    var colon := Find(mandate, ":");
    head := ParsedHead(r, mandate);
    stamp := None;
    if colon.Some? {
      var rest := mandate[colon.value + 1..];
      var tail := rest[|EXPIRES|..];
      var text := ParsedTail(r, mandate, Parse(r, mandate).value.scope, tail);
      assert rest == EXPIRES + tail;
      stamp := Some(text);
    }
  }

  lemma CutIsDelimited(tail: string, n: nat)
    requires n + |PARENT| <= |tail| && tail[n..n + |PARENT|] == PARENT && forall k | 0 <= k < n :: !(PARENT <= tail[k..])
    ensures Delimited(tail[..n])
  {
    var stamp := tail[..n];
    forall k | 0 <= k <= n ensures !(PARENT <= stamp[k..]) {
      assert stamp[k..] + tail[n..] == tail[k..];
    }
    if n >= 7 {
      assert tail[n - 7..] == stamp[n - 7..] + tail[n..] && tail[n..][0] == ':';
      assert (":parent" + tail[n..])[..8] == PARENT;
    }
  }

  /** The language of mandates, exactly: which texts denote one, and which scope, expiry and parent each denotes. */
  lemma ParsesExactlyWhen(r: Reader, mandate: string, scope: Scope, expires: Option<int>, parent: Option<string>)
    ensures Denotes(r, mandate, scope, expires, parent) <==>
            exists head, stamp: Option<string> ::
              Spelled(r, mandate, head, scope, stamp, parent) && expires == if stamp.None? then None else r.instant(stamp.value)
  {
    if Denotes(r, mandate, scope, expires, parent) {
      var head, stamp := ParsedIsSpelled(r, mandate);
    }
    if head, stamp: Option<string> :| Spelled(r, mandate, head, scope, stamp, parent)
                                      && expires == if stamp.None? then None else r.instant(stamp.value) {
      SpelledParses(r, mandate, head, scope, stamp, parent);
    }
  }

  /** In particular, the delegation form reads back exactly what was written into it. */
  lemma DelegationFormReadsBack(r: Reader, scope: Scope, stamp: string, parent: string)
    requires Delimited(stamp) && parent != "" && ':' !in parent && r.instant(stamp).Some?
    ensures var m := Parse(r, scope.Name() + ":" + (EXPIRES + (stamp + PARENT + parent)));
            m.Some? && m.value.scope == scope && m.value.expires == r.instant(stamp) && m.value.parentId == Some(parent)
  {
    var text := scope.Name() + ":" + (EXPIRES + (stamp + PARENT + parent));
    ScopeNamesRead(scope);
    SpelledParses(r, text, scope.Name(), scope, Some(stamp), Some(parent));
  }

  /** The mandate text denotes a mandate that allows this now. */
  predicate TextAllows(r: Reader, text: string, action: Action, risk: Risk, now: int) {
    Parse(r, text).Some? && Parse(r, text).value.Allows(action, risk, now)
  }

  lemma BareNameAllows(r: Reader, scope: Scope, action: Action, risk: Risk, now: int)
    ensures TextAllows(r, scope.Name(), action, risk, now) <==>
            action in scope.Actions() && risk.Rank() <= scope.Ceiling().Rank()
  {
    BareNameParses(r, scope);
  }

  /** Only the six names denote a scope, whatever their case and the blanks around them. */
  lemma ParsedScopeIsNamed(r: Reader, mandate: string)
    requires Parse(r, mandate).Some?
    ensures var colon := Find(mandate, ":"); var head := if colon.Some? then mandate[..colon.value] else mandate;
            Lower(Text.Strip(head)) == Parse(r, mandate).value.scope.Name()
  {
    var colon := Find(mandate, ":");
    NameIsNamed(Lower(Text.Strip(if colon.Some? then mandate[..colon.value] else mandate)), Parse(r, mandate).value.scope);
  }

  /** The names of the scopes, and what the mandate of each allows. COMMIT is never delegated. */
  lemma ScopesAllow(r: Reader, scope: Scope, action: Action, risk: Risk, now: int)
    ensures scope.Name() ==
            match scope
            case ReadOnly => "read-only"
            case InspectOnly => "inspect"
            case ProposeScope => "propose"
            case VerifyScope => "verify"
            case ExecuteScope => "execute"
            case Full => "full"
    ensures TextAllows(r, scope.Name(), action, risk, now) <==>
            match scope
            case ReadOnly => action == Inspect && risk == Low
            case InspectOnly => action == Inspect && risk == Low
            case ProposeScope => (action == Inspect || action == Propose) && risk == Low
            case VerifyScope => (action == Inspect || action == Propose || action == Verify) && risk != High
            case ExecuteScope => action != Commit && risk != High
            case Full => action != Commit
  {
    BareNameAllows(r, scope, action, risk, now);
  }

  // ---------------------------------------------------------------- delegation

  datatype Context = Context(
    principal: string,
    parentPrincipal: Option<string>,
    session: Option<string>,
    mandate: Option<string>,
    provenance: string,
    subagent: Option<string>,
    parentSession: Option<string>,
    cronJob: Option<string>)

  /** The mandate text as Python truth-tests it: None and "" both mean absent. */
  function Present(mandate: Option<string>): Option<string> {
    if mandate == Some("") then None else mandate
  }

  function MandateOf(r: Reader, mandate: Option<string>): Option<Mandate> {
    if Present(mandate).None? then None else Parse(r, mandate.value)
  }

  /** `requested or parent's`, cut back to the parent's when both parse and the request is broader. */
  function EffectiveMandate(r: Reader, parent: Option<string>, requested: Option<string>, now: int): Option<string> {
    var effective := if Present(requested).Some? then requested else parent;
    var pm, cm := MandateOf(r, parent), MandateOf(r, effective);
    if pm.Some? && cm.Some? && !cm.value.SubsetOf(pm.value, now) then parent else effective
  }

  function Propagate(r: Reader, parent: Option<Context>, subagent: string, session: string, requested: Option<string>, now: int): Context {
    if parent.None? then
      Context("subagent:" + subagent, None, Some(session), requested, "delegated", Some(subagent), None, None)
    else
      var p := parent.value;
      Context("subagent:" + subagent, Some(p.principal), Some(session), EffectiveMandate(r, p.mandate, requested, now),
              "delegated", Some(subagent), p.session, p.cronJob)
  }

  datatype Delegation = Delegation(subagent: string, session: string, requested: Option<string>, now: int)

  /** The context n delegations below root. */
  function Descendant(r: Reader, root: Context, chain: seq<Delegation>, n: nat): Context
    requires n <= |chain|
  {
    if n == 0 then root
    else
      var d := chain[n - 1];
      Propagate(r, Some(Descendant(r, root, chain, n - 1)), d.subagent, d.session, d.requested, d.now)
  }

  /** Every authority the child's mandate carries, the ancestor's carries too. A mandate that does not parse
      carries none. Expiry is not part of it: the source does not compare expiries. */
  predicate Within(r: Reader, child: Option<string>, ancestor: Option<string>) {
    var c, a := MandateOf(r, child), MandateOf(r, ancestor);
    c.Some? ==>
      && a.Some?
      && c.value.scope.Actions() <= a.value.scope.Actions()
      && c.value.scope.Ceiling().Rank() <= a.value.scope.Ceiling().Rank()
  }

  /** A request the caller can check before delegating: absent, or parseable. */
  predicate WellFormedRequest(r: Reader, requested: Option<string>) {
    Present(requested).None? || MandateOf(r, requested).Some?
  }

  lemma OneStepAttenuates(r: Reader, parent: Option<string>, requested: Option<string>, now: int)
    requires MandateOf(r, parent).Some? && WellFormedRequest(r, requested)
    ensures MandateOf(r, EffectiveMandate(r, parent, requested, now)).Some?
    ensures Within(r, EffectiveMandate(r, parent, requested, now), parent)
  {
  }

  /** Along a delegation chain of any length whose root mandate parses and whose requests are each absent or
      parseable, every descendant's actions and risk ceiling lie within every ancestor's. */
  lemma {:induction false} ChainAttenuates(r: Reader, root: Context, chain: seq<Delegation>, i: nat, j: nat)
    requires MandateOf(r, root.mandate).Some?
    requires forall d | d in chain :: WellFormedRequest(r, d.requested)
    requires i <= j <= |chain|
    ensures MandateOf(r, Descendant(r, root, chain, j).mandate).Some?
    ensures Within(r, Descendant(r, root, chain, j).mandate, Descendant(r, root, chain, i).mandate)
    decreases j
  {
    if j > 0 {
      ChainAttenuates(r, root, chain, if i < j then i else j - 1, j - 1);
      var d := chain[j - 1];
      assert d in chain;
      OneStepAttenuates(r, Descendant(r, root, chain, j - 1).mandate, d.requested, d.now);
    }
  }

  ghost predicate AlwaysAttenuates(r: Reader, root: Context, requests: iset<Option<string>>) {
    forall chain: seq<Delegation>, n: nat | n <= |chain| && (forall d | d in chain :: d.requested in requests) ::
      Within(r, Descendant(r, root, chain, n).mandate, root.mandate)
  }

  /** Two delegations lose the root's bounds: an unparseable mandate switches the subset rule off for its child. */
  lemma UnparseableRequestEscapes(r: Reader, root: Context, junk: Option<string>, chain: seq<Delegation>)
    requires MandateOf(r, root.mandate).Some? && MandateOf(r, root.mandate).value.scope.Ceiling() != High
    requires !WellFormedRequest(r, junk)
    requires |chain| == 2 && chain[0].requested == junk && chain[1].requested == Some("full")
    ensures !Within(r, Descendant(r, root, chain, 2).mandate, root.mandate)
  {
    FullParses(r);
    assert Descendant(r, root, chain, 0) == root;
    assert Descendant(r, root, chain, 1).mandate == junk;
    assert Descendant(r, root, chain, 2).mandate == Some("full");
  }

  lemma FullParses(r: Reader)
    ensures Parse(r, "full").Some? && Parse(r, "full").value.scope == Full && Parse(r, "full").value.expires == None
  {
    ScopeNamesRead(Full);
    FindsNothing("full", ":");
  }

  lemma EscapeExists(r: Reader, root: Context, requests: iset<Option<string>>, junk: Option<string>)
    requires MandateOf(r, root.mandate).Some? && MandateOf(r, root.mandate).value.scope.Ceiling() != High
    requires Some("full") in requests && junk in requests && !WellFormedRequest(r, junk)
    ensures !AlwaysAttenuates(r, root, requests)
  {
    var chain := [Delegation("a", "s", junk, 0), Delegation("b", "s", Some("full"), 0)];
    UnparseableRequestEscapes(r, root, junk, chain);
  }

  lemma WellFormedRequestsAttenuate(r: Reader, root: Context, requests: iset<Option<string>>)
    requires MandateOf(r, root.mandate).Some?
    requires forall q | q in requests :: WellFormedRequest(r, q)
    ensures AlwaysAttenuates(r, root, requests)
  {
    forall chain: seq<Delegation>, n: nat | n <= |chain| && (forall d | d in chain :: d.requested in requests)
      ensures Within(r, Descendant(r, root, chain, n).mandate, root.mandate)
    {
      ChainAttenuates(r, root, chain, 0, n);
    }
  }

  /** Exactly which requests keep every chain inside its root: those that are absent or parse. */
  lemma AttenuationHoldsExactlyWhen(r: Reader, root: Context, requests: iset<Option<string>>)
    requires MandateOf(r, root.mandate).Some? && MandateOf(r, root.mandate).value.scope.Ceiling() != High
    requires Some("full") in requests
    ensures AlwaysAttenuates(r, root, requests) <==> forall q | q in requests :: WellFormedRequest(r, q)
  {
    if forall q | q in requests :: WellFormedRequest(r, q) {
      WellFormedRequestsAttenuate(r, root, requests);
    } else {
      var junk :| junk in requests && !WellFormedRequest(r, junk);
      EscapeExists(r, root, requests, junk);
    }
  }

  // ---------------------------------------------------------------- expiry

  /** The mandate still allows something at this time. */
  predicate Alive(m: Mandate, t: int) {
    exists action, risk :: m.Allows(action, risk, t)
  }

  lemma AliveExactlyWhenValid(m: Mandate, t: int)
    ensures Alive(m, t) <==> m.Valid(t)
  {
    assert Inspect in m.scope.Actions();
    if m.Valid(t) {
      assert m.Allows(Inspect, Low, t);
    }
  }

  /** a ends no later than b; None never ends. */
  predicate EndsBy(a: Option<int>, b: Option<int>) {
    b.Some? ==> a.Some? && a.value <= b.value
  }

  /** At some time after the ancestor's mandate has expired the child's still allows something. */
  ghost predicate Outlives(r: Reader, child: Option<string>, ancestor: Option<string>) {
    var c, a := MandateOf(r, child), MandateOf(r, ancestor);
    c.Some? && a.Some? && exists t :: Alive(c.value, t) && !a.value.Valid(t)
  }

  lemma OutlivesExactlyWhen(r: Reader, child: Option<string>, ancestor: Option<string>)
    requires MandateOf(r, child).Some? && MandateOf(r, ancestor).Some?
    ensures Outlives(r, child, ancestor) <==>
            !EndsBy(MandateOf(r, child).value.expires, MandateOf(r, ancestor).value.expires)
  {
    var c, a := MandateOf(r, child).value, MandateOf(r, ancestor).value;
    if !EndsBy(c.expires, a.expires) {
      var t := if c.expires.Some? then c.expires.value else a.expires.value + 1;
      AliveExactlyWhenValid(c, t);
      assert Alive(c, t) && !a.Valid(t);
    }
    if t :| Alive(c, t) && !a.Valid(t) {
      AliveExactlyWhenValid(c, t);
    }
  }

  /** The delegation takes its request over: the request names a mandate within the parent's scope, while the parent
      is valid. */
  predicate Takes(r: Reader, parent: Option<string>, d: Delegation) {
    var pm, qm := MandateOf(r, parent), MandateOf(r, d.requested);
    pm.Some? && qm.Some? && qm.value.SubsetOf(pm.value, d.now)
  }

  /** ... and the mandate it takes ends later than the given one, or never. */
  predicate TakesLonger(r: Reader, parent: Option<string>, d: Delegation, limit: Option<string>) {
    Takes(r, parent, d) && MandateOf(r, limit).Some?
    && !EndsBy(MandateOf(r, d.requested).value.expires, MandateOf(r, limit).value.expires)
  }

  /** One delegation of a mandate that parses, on a request that is absent or parses: what the child then holds. */
  lemma ChildHolds(r: Reader, parent: Option<string>, d: Delegation)
    requires MandateOf(r, parent).Some? && WellFormedRequest(r, d.requested)
    ensures MandateOf(r, EffectiveMandate(r, parent, d.requested, d.now))
            == if Takes(r, parent, d) then MandateOf(r, d.requested) else MandateOf(r, parent)
  {
  }

  /** A child outlives its parent exactly when it is delegated, while the parent is valid, a mandate within the
      parent's scope whose own expiry is later, or missing. Otherwise its authority ends with the parent's. */
  lemma ChildOutlivesParentExactlyWhen(r: Reader, parent: Context, d: Delegation)
    requires MandateOf(r, parent.mandate).Some? && WellFormedRequest(r, d.requested)
    ensures Outlives(r, Propagate(r, Some(parent), d.subagent, d.session, d.requested, d.now).mandate, parent.mandate)
            <==> TakesLonger(r, parent.mandate, d, parent.mandate)
  {
    ChildHolds(r, parent.mandate, d);
    OutlivesExactlyWhen(r, EffectiveMandate(r, parent.mandate, d.requested, d.now), parent.mandate);
  }

  /** A mandate is good for its last instant and for no later one. */
  lemma AllowsUntil(m: Mandate, action: Action, risk: Risk, now: int)
    ensures m.Allows(action, risk, now) <==>
            && (m.expires.None? || now <= m.expires.value)
            && action in m.scope.Actions()
            && (risk == Low || m.scope.Ceiling() == High || risk == m.scope.Ceiling())
  {
  }

  /** What a delegation makes of everything but the mandate: the child is a principal of its own, below its parent. */
  lemma ChildIsNamedAfterParent(r: Reader, parent: Context, d: Delegation)
    ensures var child := Propagate(r, Some(parent), d.subagent, d.session, d.requested, d.now);
            && child.principal == "subagent:" + d.subagent && child.subagent == Some(d.subagent)
            && child.parentPrincipal == Some(parent.principal) && child.parentSession == parent.session
            && child.session == Some(d.session) && child.provenance == "delegated" && child.cronJob == parent.cronJob
  {
  }

  /** Without a parent there is nothing to inherit; and a parent whose mandate does not parse gives no limit. */
  lemma UnlimitedChild(r: Reader, parent: Context, d: Delegation)
    ensures var orphan := Propagate(r, None, d.subagent, d.session, d.requested, d.now);
            && orphan.mandate == d.requested && orphan.principal == "subagent:" + d.subagent && orphan.session == Some(d.session)
            && orphan.provenance == "delegated" && orphan.subagent == Some(d.subagent)
            && orphan.parentPrincipal.None? && orphan.parentSession.None? && orphan.cronJob.None?
    ensures MandateOf(r, parent.mandate).None? ==>
              Propagate(r, Some(parent), d.subagent, d.session, d.requested, d.now).mandate
              == if d.requested.None? || d.requested == Some("") then parent.mandate else d.requested
  {
  }

  function MandateAt(r: Reader, root: Context, chain: seq<Delegation>, n: nat): Option<string>
    requires n <= |chain|
  {
    Descendant(r, root, chain, n).mandate
  }

  lemma LinkHolds(r: Reader, root: Context, chain: seq<Delegation>, n: nat)
    requires n < |chain| && MandateOf(r, MandateAt(r, root, chain, n)).Some? && WellFormedRequest(r, chain[n].requested)
    ensures MandateOf(r, MandateAt(r, root, chain, n + 1))
            == if Takes(r, MandateAt(r, root, chain, n), chain[n]) then MandateOf(r, chain[n].requested)
               else MandateOf(r, MandateAt(r, root, chain, n))
  {
    ChildHolds(r, MandateAt(r, root, chain, n), chain[n]);
  }

  /** Link n, from position n to n + 1, takes a mandate that ends later than the one at position i. */
  predicate LinkTakesLonger(r: Reader, root: Context, chain: seq<Delegation>, n: nat, i: nat)
    requires n < |chain| && i <= |chain|
  {
    TakesLonger(r, MandateAt(r, root, chain, n), chain[n], MandateAt(r, root, chain, i))
  }

  function ExpiryOf(r: Reader, mandate: Option<string>): Option<int>
    requires MandateOf(r, mandate).Some?
  {
    MandateOf(r, mandate).value.expires
  }

  /** A link that does not take longer passes the bound on. */
  lemma LinkEndsBy(r: Reader, root: Context, chain: seq<Delegation>, n: nat, limit: Option<string>)
    requires MandateOf(r, root.mandate).Some? && n < |chain| && MandateOf(r, limit).Some?
    requires forall d | d in chain :: WellFormedRequest(r, d.requested)
    requires !TakesLonger(r, MandateAt(r, root, chain, n), chain[n], limit)
    requires MandateOf(r, MandateAt(r, root, chain, n)).Some?
    requires EndsBy(ExpiryOf(r, MandateAt(r, root, chain, n)), ExpiryOf(r, limit))
    ensures MandateOf(r, MandateAt(r, root, chain, n + 1)).Some?
    ensures EndsBy(ExpiryOf(r, MandateAt(r, root, chain, n + 1)), ExpiryOf(r, limit))
  {
    assert chain[n] in chain;
    LinkHolds(r, root, chain, n);
  }

  lemma ParsesAlong(r: Reader, root: Context, chain: seq<Delegation>, i: nat)
    requires MandateOf(r, root.mandate).Some? && i <= |chain|
    requires forall d | d in chain :: WellFormedRequest(r, d.requested)
    ensures MandateOf(r, MandateAt(r, root, chain, i)).Some?
  {
    ChainAttenuates(r, root, chain, 0, i);
  }

  lemma NextEndsBy(r: Reader, root: Context, chain: seq<Delegation>, n: nat, i: nat)
    requires MandateOf(r, root.mandate).Some? && i <= n < |chain| && !LinkTakesLonger(r, root, chain, n, i)
    requires forall d | d in chain :: WellFormedRequest(r, d.requested)
    requires MandateOf(r, MandateAt(r, root, chain, i)).Some? && MandateOf(r, MandateAt(r, root, chain, n)).Some?
    requires EndsBy(ExpiryOf(r, MandateAt(r, root, chain, n)), ExpiryOf(r, MandateAt(r, root, chain, i)))
    ensures MandateOf(r, MandateAt(r, root, chain, n + 1)).Some?
    ensures EndsBy(ExpiryOf(r, MandateAt(r, root, chain, n + 1)), ExpiryOf(r, MandateAt(r, root, chain, i)))
  {
    LinkEndsBy(r, root, chain, n, MandateAt(r, root, chain, i));
  }

  /** As long as no link below the ancestor takes a mandate that ends later than the ancestor's, none is held. */
  lemma {:induction false} EndsWithAncestor(r: Reader, root: Context, chain: seq<Delegation>, i: nat, j: nat)
    requires MandateOf(r, root.mandate).Some? && i <= j <= |chain|
    requires forall d | d in chain :: WellFormedRequest(r, d.requested)
    requires forall n | i <= n < j :: !LinkTakesLonger(r, root, chain, n, i)
    ensures MandateOf(r, MandateAt(r, root, chain, i)).Some? && MandateOf(r, MandateAt(r, root, chain, j)).Some?
    ensures EndsBy(ExpiryOf(r, MandateAt(r, root, chain, j)), ExpiryOf(r, MandateAt(r, root, chain, i)))
    decreases j
  {
    ParsesAlong(r, root, chain, i);
    if i < j {
      EndsWithAncestor(r, root, chain, i, j - 1);
      NextEndsBy(r, root, chain, j - 1, i);
    }
  }

  /** Along a chain whose root parses and whose requests are absent or parse: some descendant of the ancestor at
      position i outlives it exactly when some link below it takes a mandate that ends later than the ancestor's. */
  lemma ChainOutlivesExactlyWhen(r: Reader, root: Context, chain: seq<Delegation>, i: nat)
    requires MandateOf(r, root.mandate).Some? && i <= |chain|
    requires forall d | d in chain :: WellFormedRequest(r, d.requested)
    ensures (exists j :: i <= j <= |chain| && Outlives(r, MandateAt(r, root, chain, j), MandateAt(r, root, chain, i)))
            <==> exists n :: i <= n < |chain| && LinkTakesLonger(r, root, chain, n, i)
  {
    ChainAttenuates(r, root, chain, 0, i);
    if n :| i <= n < |chain| && LinkTakesLonger(r, root, chain, n, i) {
      LinkOutlives(r, root, chain, n, i);
    } else {
      forall j | i <= j <= |chain| ensures !Outlives(r, MandateAt(r, root, chain, j), MandateAt(r, root, chain, i)) {
        EndsWithAncestor(r, root, chain, i, j);
        OutlivesExactlyWhen(r, MandateAt(r, root, chain, j), MandateAt(r, root, chain, i));
      }
    }
  }

  lemma LinkOutlives(r: Reader, root: Context, chain: seq<Delegation>, n: nat, i: nat)
    requires MandateOf(r, root.mandate).Some? && n < |chain| && i <= |chain| && LinkTakesLonger(r, root, chain, n, i)
    requires forall d | d in chain :: WellFormedRequest(r, d.requested)
    ensures Outlives(r, MandateAt(r, root, chain, n + 1), MandateAt(r, root, chain, i))
  {
    assert chain[n] in chain;
    LinkHolds(r, root, chain, n);
    OutlivesExactlyWhen(r, MandateAt(r, root, chain, n + 1), MandateAt(r, root, chain, i));
  }

  /** No link takes a mandate that ends later than its own parent's. */
  predicate NoLinkTakesLonger(r: Reader, root: Context, chain: seq<Delegation>) {
    forall n | 0 <= n < |chain| :: !LinkTakesLonger(r, root, chain, n, n)
  }

  lemma LinkShrinks(r: Reader, root: Context, chain: seq<Delegation>, n: nat)
    requires MandateOf(r, root.mandate).Some? && n < |chain| && NoLinkTakesLonger(r, root, chain)
    requires forall d | d in chain :: WellFormedRequest(r, d.requested)
    requires MandateOf(r, MandateAt(r, root, chain, n)).Some?
    ensures MandateOf(r, MandateAt(r, root, chain, n + 1)).Some?
    ensures EndsBy(ExpiryOf(r, MandateAt(r, root, chain, n + 1)), ExpiryOf(r, MandateAt(r, root, chain, n)))
  {
    assert !LinkTakesLonger(r, root, chain, n, n);
    LinkEndsBy(r, root, chain, n, MandateAt(r, root, chain, n));
  }

  /** When every expiry is followed by one that ends by it, the last ends by the first. */
  lemma {:induction false} EndsAlong(ends: seq<Option<int>>, i: nat, j: nat)
    requires i <= j < |ends| && forall n | i <= n < j :: EndsBy(ends[n + 1], ends[n])
    ensures EndsBy(ends[j], ends[i])
    decreases j
  {
    if i < j {
      EndsAlong(ends, i, j - 1);
    }
  }

  lemma ExpiryShrinks(r: Reader, root: Context, chain: seq<Delegation>, ends: seq<Option<int>>, i: nat, j: nat)
    requires MandateOf(r, root.mandate).Some? && i <= j <= |chain| && NoLinkTakesLonger(r, root, chain)
    requires forall d | d in chain :: WellFormedRequest(r, d.requested)
    requires |ends| == |chain| + 1 && forall n | 0 <= n < |ends| :: EndsAt(r, root, chain, n, ends[n])
    ensures EndsBy(ends[j], ends[i])
  {
    forall n | i <= n < j ensures EndsBy(ends[n + 1], ends[n]) {
      ParsesAlong(r, root, chain, n);
      LinkShrinks(r, root, chain, n);
      assert EndsAt(r, root, chain, n, ends[n]) && EndsAt(r, root, chain, n + 1, ends[n + 1]);
    }
    EndsAlong(ends, i, j);
  }

  /** The mandate at position n, if it parses, has this expiry. */
  predicate EndsAt(r: Reader, root: Context, chain: seq<Delegation>, n: nat, end: Option<int>)
    requires n <= |chain|
  {
    MandateOf(r, MandateAt(r, root, chain, n)).Some? ==> ExpiryOf(r, MandateAt(r, root, chain, n)) == end
  }

  lemma EndsOf(r: Reader, root: Context, chain: seq<Delegation>) returns (ends: seq<Option<int>>)
    ensures |ends| == |chain| + 1 && forall n | 0 <= n < |ends| :: EndsAt(r, root, chain, n, ends[n])
  {
    ends := seq(|chain| + 1, n requires 0 <= n <= |chain| =>
      var m := MandateOf(r, MandateAt(r, root, chain, n)); if m.Some? then m.value.expires else None);
  }

  lemma NotOutlived(r: Reader, root: Context, chain: seq<Delegation>, ends: seq<Option<int>>, i: nat, j: nat)
    requires i <= j <= |chain| && j < |ends| && EndsBy(ends[j], ends[i])
    requires EndsAt(r, root, chain, i, ends[i]) && EndsAt(r, root, chain, j, ends[j])
    requires MandateOf(r, MandateAt(r, root, chain, i)).Some? && MandateOf(r, MandateAt(r, root, chain, j)).Some?
    ensures !Outlives(r, MandateAt(r, root, chain, j), MandateAt(r, root, chain, i))
  {
    OutlivesExactlyWhen(r, MandateAt(r, root, chain, j), MandateAt(r, root, chain, i));
  }

  /** Authority never outlives any ancestor, anywhere along the chain, exactly when no link takes a mandate that ends
      later than its parent's. */
  lemma ExpiryAttenuatesExactlyWhen(r: Reader, root: Context, chain: seq<Delegation>)
    requires MandateOf(r, root.mandate).Some?
    requires forall d | d in chain :: WellFormedRequest(r, d.requested)
    ensures (forall i, j | 0 <= i <= j <= |chain| :: !Outlives(r, MandateAt(r, root, chain, j), MandateAt(r, root, chain, i)))
            <==> NoLinkTakesLonger(r, root, chain)
  {
    if NoLinkTakesLonger(r, root, chain) {
      var ends := EndsOf(r, root, chain);
      forall i, j | 0 <= i <= j <= |chain| ensures !Outlives(r, MandateAt(r, root, chain, j), MandateAt(r, root, chain, i)) {
        ParsesAlong(r, root, chain, i);
        ParsesAlong(r, root, chain, j);
        ExpiryShrinks(r, root, chain, ends, i, j);
        NotOutlived(r, root, chain, ends, i, j);
      }
    } else {
      var n :| 0 <= n < |chain| && LinkTakesLonger(r, root, chain, n, n);
      LinkOutlives(r, root, chain, n, n);
    }
  }

  /** Such a delegation exists for every valid parent that ends at all: ask for its bare scope. */
  lemma BareScopeOutlives(r: Reader, parent: Context, d: Delegation)
    requires MandateOf(r, parent.mandate).Some? && MandateOf(r, parent.mandate).value.expires.Some?
    requires MandateOf(r, parent.mandate).value.Valid(d.now)
    requires d.requested == Some(MandateOf(r, parent.mandate).value.scope.Name())
    ensures Outlives(r, Propagate(r, Some(parent), d.subagent, d.session, d.requested, d.now).mandate, parent.mandate)
  {
    var scope := MandateOf(r, parent.mandate).value.scope;
    BareNameParses(r, scope);
    ChildOutlivesParentExactlyWhen(r, parent, d);
  }

  lemma BareNameParses(r: Reader, scope: Scope)
    ensures scope.Name() != "" && Parse(r, scope.Name()).Some?
    ensures Parse(r, scope.Name()).value.scope == scope && Parse(r, scope.Name()).value.expires == None
  {
    ScopeNamesRead(scope);
    SpelledParses(r, scope.Name(), scope.Name(), scope, None, None);
  }
}
