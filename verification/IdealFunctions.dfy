/** The idealised hash, MAC and encoding that the theorems assume exist: one injective, self-delimiting encoding of
    JSON values meets every such assumption at once. Encodings are written in front of a given rest. */
module IdealFunctions {
  import opened Domain
  import opened JsonValues
  import Approval
  import ApprovalSigning
  import AuditChain
  import Authentication
  import Kernel
  import KernelOrigin
  import Text

  ghost function Unary(n: nat, rest: string): string {
    if n == 0 then [';'] + rest else ['I'] + Unary(n - 1, rest)
  }

  ghost function EncInt(n: int, rest: string): string {
    if n < 0 then ['-'] + Unary(-n, rest) else ['+'] + Unary(n, rest)
  }

  ghost function EncChars(s: string, rest: string): string {
    if s == "" then ['.'] + rest else ['c'] + Unary(s[0] as nat, EncChars(s[1..], rest))
  }

  ghost function EncFloat(negative: bool, mantissa: nat, exponent: int, rest: string): string {
    [if negative then '-' else '+'] + Unary(mantissa, EncInt(exponent, rest))
  }

  ghost function Enc(v: Json, rest: string): string
    decreases v, 0
  {
    match v
    case JNull => ['n'] + rest
    case JBool(b) => (if b then ['t'] else ['f']) + rest
    case JInt(n) => ['i'] + EncInt(n, rest)
    case JFloat(negative, mantissa, exponent) => ['r'] + EncFloat(negative, mantissa, exponent, rest)
    case JNonFinite(text) => ['x'] + EncChars(text, rest)
    case JStr(s) => ['s'] + EncChars(s, rest)
    case JArr(items) => ['['] + EncItems(v, items, rest)
    case JObj(fields) => ['{'] + EncFields(v, fields, rest)
  }

  ghost function EncItems(parent: Json, items: seq<Json>, rest: string): string
    requires forall i | 0 <= i < |items| :: items[i] < parent
    decreases parent, 0, |items|
  {
    if items == [] then [']'] + rest else [','] + Enc(items[0], EncItems(parent, items[1..], rest))
  }

  ghost function Pick(fields: Fields): (key: string)
    requires fields != map[]
    ensures key in fields
  {
    var key :| key in fields; key
  }

  ghost function EncFields(parent: Json, fields: Fields, rest: string): string
    requires forall key | key in fields :: fields[key] < parent
    decreases parent, 0, |fields|
  {
    if fields == map[] then ['}'] + rest
    else
      var key := Pick(fields);
      [':'] + EncChars(key, Enc(fields[key], EncFields(parent, fields - {key}, rest)))
  }

  // ---------------------------------------------------------------- the encoding is injective and self-delimiting

  lemma Peel(c: char, u: string, d: char, v: string)
    requires [c] + u == [d] + v
    ensures c == d && u == v
  {
    assert ([c] + u)[0] == c && ([d] + v)[0] == d;
    assert ([c] + u)[1..] == u && ([d] + v)[1..] == v;
  }

  lemma {:induction false} UnaryUnique(m: nat, n: nat, x: string, y: string)
    requires Unary(m, x) == Unary(n, y)
    ensures m == n && x == y
  {
    if m == 0 || n == 0 {
      Peel(if m == 0 then ';' else 'I', if m == 0 then x else Unary(m - 1, x),
           if n == 0 then ';' else 'I', if n == 0 then y else Unary(n - 1, y));
    } else {
      Peel('I', Unary(m - 1, x), 'I', Unary(n - 1, y));
      UnaryUnique(m - 1, n - 1, x, y);
    }
  }

  lemma IntUnique(m: int, n: int, x: string, y: string)
    requires EncInt(m, x) == EncInt(n, y)
    ensures m == n && x == y
  {
    var a, b := if m < 0 then -m else m, if n < 0 then -n else n;
    Peel(if m < 0 then '-' else '+', Unary(a, x), if n < 0 then '-' else '+', Unary(b, y));
    UnaryUnique(a, b, x, y);
  }

  lemma {:induction false} CharsUnique(s: string, t: string, x: string, y: string)
    requires EncChars(s, x) == EncChars(t, y)
    ensures s == t && x == y
  {
    if s == "" || t == "" {
      Peel(if s == "" then '.' else 'c', EncChars(s, x)[1..], if t == "" then '.' else 'c', EncChars(t, y)[1..]);
    } else {
      Peel('c', Unary(s[0] as nat, EncChars(s[1..], x)), 'c', Unary(t[0] as nat, EncChars(t[1..], y)));
      UnaryUnique(s[0] as nat, t[0] as nat, EncChars(s[1..], x), EncChars(t[1..], y));
      CharsUnique(s[1..], t[1..], x, y);
      assert s == [s[0]] + s[1..] && t == [t[0]] + t[1..];
    }
  }

  lemma FloatUnique(a: Json, b: Json, x: string, y: string)
    requires a.JFloat? && b.JFloat?
    requires EncFloat(a.negative, a.mantissa, a.exponent, x) == EncFloat(b.negative, b.mantissa, b.exponent, y)
    ensures a == b && x == y
  {
    var u, v := EncInt(a.exponent, x), EncInt(b.exponent, y);
    Peel(if a.negative then '-' else '+', Unary(a.mantissa, u), if b.negative then '-' else '+', Unary(b.mantissa, v));
    UnaryUnique(a.mantissa, b.mantissa, u, v);
    IntUnique(a.exponent, b.exponent, x, y);
  }

  /** The first character tells the kind of value. */
  ghost function Tag(v: Json): char {
    match v
    case JNull => 'n'
    case JBool(b) => if b then 't' else 'f'
    case JInt(_) => 'i'
    case JFloat(_, _, _) => 'r'
    case JNonFinite(_) => 'x'
    case JStr(_) => 's'
    case JArr(_) => '['
    case JObj(_) => '{'
  }

  ghost function Body(v: Json, rest: string): string {
    match v
    case JNull => rest
    case JBool(b) => rest
    case JInt(n) => EncInt(n, rest)
    case JFloat(negative, mantissa, exponent) => EncFloat(negative, mantissa, exponent, rest)
    case JNonFinite(text) => EncChars(text, rest)
    case JStr(s) => EncChars(s, rest)
    case JArr(items) => EncItems(v, items, rest)
    case JObj(fields) => EncFields(v, fields, rest)
  }

  lemma TagAndBody(v: Json, rest: string)
    ensures Enc(v, rest) == [Tag(v)] + Body(v, rest)
  {
  }

  lemma {:induction false} EncUnique(a: Json, b: Json, x: string, y: string)
    requires Enc(a, x) == Enc(b, y)
    ensures a == b && x == y
    decreases a, 0
  {
    TagAndBody(a, x);
    TagAndBody(b, y);
    Peel(Tag(a), Body(a, x), Tag(b), Body(b, y));
    match a
    case JNull =>
    case JBool(_) =>
    case JInt(n) => IntUnique(n, b.n, x, y);
    case JFloat(_, _, _) => FloatUnique(a, b, x, y);
    case JNonFinite(text) => CharsUnique(text, b.text, x, y);
    case JStr(s) => CharsUnique(s, b.s, x, y);
    case JArr(items) => ItemsUnique(a, items, b, b.items, x, y);
    case JObj(fields) => FieldsUnique(a, fields, b, b.fields, x, y);
  }

  lemma {:induction false} ItemsUnique(p: Json, a: seq<Json>, q: Json, b: seq<Json>, x: string, y: string)
    requires forall i | 0 <= i < |a| :: a[i] < p
    requires forall i | 0 <= i < |b| :: b[i] < q
    requires EncItems(p, a, x) == EncItems(q, b, y)
    ensures a == b && x == y
    decreases p, 0, |a|
  {
    Peel(EncItems(p, a, x)[0], EncItems(p, a, x)[1..], EncItems(q, b, y)[0], EncItems(q, b, y)[1..]);
    if a == [] {
      Peel(']', x, ']', y);
    } else {
      Peel(',', Enc(a[0], EncItems(p, a[1..], x)), ',', Enc(b[0], EncItems(q, b[1..], y)));
      EncUnique(a[0], b[0], EncItems(p, a[1..], x), EncItems(q, b[1..], y));
      ItemsUnique(p, a[1..], q, b[1..], x, y);
      assert a == [a[0]] + a[1..] && b == [b[0]] + b[1..];
    }
  }

  lemma {:induction false} FieldsUnique(p: Json, a: Fields, q: Json, b: Fields, x: string, y: string)
    requires forall key | key in a :: a[key] < p
    requires forall key | key in b :: b[key] < q
    requires EncFields(p, a, x) == EncFields(q, b, y)
    ensures a == b && x == y
    decreases p, 0, |a|
  {
    Peel(EncFields(p, a, x)[0], EncFields(p, a, x)[1..], EncFields(q, b, y)[0], EncFields(q, b, y)[1..]);
    if a == map[] {
      Peel('}', x, '}', y);
    } else {
      var k, l := Pick(a), Pick(b);
      var u, v := EncFields(p, a - {k}, x), EncFields(q, b - {l}, y);
      Peel(':', EncChars(k, Enc(a[k], u)), ':', EncChars(l, Enc(b[l], v)));
      CharsUnique(k, l, Enc(a[k], u), Enc(b[l], v));
      EncUnique(a[k], b[l], u, v);
      FieldsUnique(p, a - {k}, q, b - {k}, x, y);
      assert a == (a - {k})[k := a[k]] && b == (b - {k})[k := b[k]];
    }
  }

  // ---------------------------------------------------------------- what comes after an encoding stays outside it

  lemma {:induction false} UnaryRest(n: nat, rest: string, more: string)
    ensures Unary(n, rest) + more == Unary(n, rest + more)
  {
    if n > 0 {
      UnaryRest(n - 1, rest, more);
      Cons('I', Unary(n - 1, rest), more);
    } else {
      Cons(';', rest, more);
    }
  }

  lemma Cons(c: char, s: string, more: string)
    ensures ([c] + s) + more == [c] + (s + more)
  {
  }

  lemma IntRest(n: int, rest: string, more: string)
    ensures EncInt(n, rest) + more == EncInt(n, rest + more)
  {
    var a := if n < 0 then -n else n;
    UnaryRest(a, rest, more);
    Cons(if n < 0 then '-' else '+', Unary(a, rest), more);
  }

  lemma {:induction false} CharsRest(s: string, rest: string, more: string)
    ensures EncChars(s, rest) + more == EncChars(s, rest + more)
  {
    if s == "" {
      Cons('.', rest, more);
    } else {
      CharsRest(s[1..], rest, more);
      UnaryRest(s[0] as nat, EncChars(s[1..], rest), more);
      Cons('c', Unary(s[0] as nat, EncChars(s[1..], rest)), more);
    }
  }

  lemma FloatRest(negative: bool, mantissa: nat, exponent: int, rest: string, more: string)
    ensures EncFloat(negative, mantissa, exponent, rest) + more == EncFloat(negative, mantissa, exponent, rest + more)
  {
    IntRest(exponent, rest, more);
    UnaryRest(mantissa, EncInt(exponent, rest), more);
    Cons(if negative then '-' else '+', Unary(mantissa, EncInt(exponent, rest)), more);
  }

  lemma {:induction false} EncRest(v: Json, rest: string, more: string)
    ensures Enc(v, rest) + more == Enc(v, rest + more)
    decreases v, 0
  {
    TagAndBody(v, rest);
    TagAndBody(v, rest + more);
    Cons(Tag(v), Body(v, rest), more);
    match v
    case JNull =>
    case JBool(_) =>
    case JInt(n) => IntRest(n, rest, more);
    case JFloat(negative, mantissa, exponent) => FloatRest(negative, mantissa, exponent, rest, more);
    case JNonFinite(text) => CharsRest(text, rest, more);
    case JStr(s) => CharsRest(s, rest, more);
    case JArr(items) => ItemsRest(v, items, rest, more);
    case JObj(fields) => FieldsRest(v, fields, rest, more);
  }

  lemma {:induction false} ItemsRest(p: Json, items: seq<Json>, rest: string, more: string)
    requires forall i | 0 <= i < |items| :: items[i] < p
    ensures EncItems(p, items, rest) + more == EncItems(p, items, rest + more)
    decreases p, 0, |items|
  {
    if items == [] {
      Cons(']', rest, more);
    } else {
      ItemsRest(p, items[1..], rest, more);
      EncRest(items[0], EncItems(p, items[1..], rest), more);
      Cons(',', Enc(items[0], EncItems(p, items[1..], rest)), more);
    }
  }

  lemma {:induction false} FieldsRest(p: Json, fields: Fields, rest: string, more: string)
    requires forall key | key in fields :: fields[key] < p
    ensures EncFields(p, fields, rest) + more == EncFields(p, fields, rest + more)
    decreases p, 0, |fields|
  {
    if fields == map[] {
      Cons('}', rest, more);
    } else {
      var key := Pick(fields);
      var tail := EncFields(p, fields - {key}, rest);
      FieldsRest(p, fields - {key}, rest, more);
      EncRest(fields[key], tail, more);
      CharsRest(key, Enc(fields[key], tail), more);
      Cons(':', EncChars(key, Enc(fields[key], tail)), more);
    }
  }

  // ---------------------------------------------------------------- no blanks in an encoding

  predicate Plain(s: string) {
    forall i | 0 <= i < |s| :: !Text.IsSpace(s[i])
  }

  lemma {:induction false} UnaryPlain(n: nat, rest: string)
    requires Plain(rest)
    ensures Plain(Unary(n, rest))
  {
    if n > 0 {
      UnaryPlain(n - 1, rest);
    }
  }

  lemma IntPlain(n: int, rest: string)
    requires Plain(rest)
    ensures Plain(EncInt(n, rest))
  {
    UnaryPlain(if n < 0 then -n else n, rest);
  }

  lemma {:induction false} CharsPlain(s: string, rest: string)
    requires Plain(rest)
    ensures Plain(EncChars(s, rest))
  {
    if s != "" {
      CharsPlain(s[1..], rest);
      UnaryPlain(s[0] as nat, EncChars(s[1..], rest));
    }
  }

  lemma {:induction false} EncPlain(v: Json, rest: string)
    requires Plain(rest)
    ensures Plain(Enc(v, rest))
    decreases v, 0
  {
    TagAndBody(v, rest);
    match v
    case JNull =>
    case JBool(_) =>
    case JInt(n) => IntPlain(n, rest);
    case JFloat(_, mantissa, exponent) =>
      IntPlain(exponent, rest);
      UnaryPlain(mantissa, EncInt(exponent, rest));
    case JNonFinite(text) => CharsPlain(text, rest);
    case JStr(s) => CharsPlain(s, rest);
    case JArr(items) => ItemsPlain(v, items, rest);
    case JObj(fields) => FieldsPlain(v, fields, rest);
  }

  lemma {:induction false} ItemsPlain(p: Json, items: seq<Json>, rest: string)
    requires Plain(rest) && forall i | 0 <= i < |items| :: items[i] < p
    ensures Plain(EncItems(p, items, rest))
    decreases p, 0, |items|
  {
    if items != [] {
      ItemsPlain(p, items[1..], rest);
      EncPlain(items[0], EncItems(p, items[1..], rest));
    }
  }

  lemma {:induction false} FieldsPlain(p: Json, fields: Fields, rest: string)
    requires Plain(rest) && forall key | key in fields :: fields[key] < p
    ensures Plain(EncFields(p, fields, rest))
    decreases p, 0, |fields|
  {
    if fields != map[] {
      var key := Pick(fields);
      var tail := EncFields(p, fields - {key}, rest);
      FieldsPlain(p, fields - {key}, rest);
      EncPlain(fields[key], tail);
      CharsPlain(key, Enc(fields[key], tail));
    }
  }

  lemma {:induction false} StripRightPlain(s: string)
    requires s != "" && !Text.IsSpace(s[|s| - 1])
    ensures Text.StripRight(s) == s
  {
  }

  lemma StripPlain(s: string)
    requires s != "" && Plain(s)
    ensures Text.Strip(s) == s
  {
    StripRightPlain(s);
  }

  lemma {:induction false} StripLeftJoin(t: string, e: string)
    requires Text.StripLeft(t) != ""
    ensures Text.StripLeft(t + e) == Text.StripLeft(t) + e
  {
    if Text.IsSpace(t[0]) {
      StripLeftJoin(t[1..], e);
      assert (t + e)[1..] == t[1..] + e;
    }
  }

  lemma {:induction false} StripRightIsPrefix(s: string)
    ensures Text.StripRight(s) <= s
  {
    if s != "" && Text.IsSpace(s[|s| - 1]) {
      StripRightIsPrefix(s[..|s| - 1]);
    }
  }

  /** Stripping text followed by plain text strips only the front. */
  lemma StripJoin(t: string, e: string) returns (between: string)
    requires Text.Strip(t) != "" && e != "" && Plain(e)
    ensures Text.Strip(t + e) == Text.Strip(t) + (between + e)
  {
    var u := Text.StripLeft(t);
    StripLeftJoin(t, e);
    StripRightPlain(u + e);
    StripRightIsPrefix(u);
    between := u[|Text.Strip(t)|..];
    assert u == Text.Strip(t) + between;
  }

  // ---------------------------------------------------------------- the ideal functions

  ghost function Written(fields: Fields): string {
    Enc(JObj(fields), "")
  }

  ghost function Read(text: string): Option<Json> {
    if exists v :: Enc(v, "") == text then
      var v :| Enc(v, "") == text; Some(v)
    else None
  }

  lemma ReadsBack(v: Json)
    ensures Read(Enc(v, "")) == Some(v)
  {
    var w := Read(Enc(v, "")).value;
    EncUnique(w, v, "", "");
  }

  lemma WrittenPlain(fields: Fields)
    ensures Written(fields) != "" && Plain(Written(fields)) && '\n' !in Written(fields)
  {
    EncPlain(JObj(fields), "");
  }

  lemma NothingLonger(v: Json, fields: Fields, more: string)
    requires Enc(v, "") + more == Written(fields)
    ensures more == ""
  {
    EncRest(v, "", more);
    assert "" + more == more;
    EncUnique(v, JObj(fields), more, "");
  }

  ghost function Ideals(): AuditChain.Primitives {
    AuditChain.Primitives(f => Written(f), f => Written(f), f => Written(f), text => Read(text),
                          (v: Json) => if v.JStr? then v.s else "", text => text)
  }

  lemma PartsAreTorn(fields: Fields, k: nat)
    requires 0 < k < |Written(fields)|
    ensures Ideals().Torn(Written(fields)[..k])
  {
    var whole := Written(fields);
    var part := whole[..k];
    WrittenPlain(fields);
    StripPlain(part);
    if Read(part).Some? {
      assert part + whole[k..] == whole;
      NothingLonger(Read(part).value, fields, whole[k..]);
    }
  }

  lemma JoinsAreTorn(t: string, fields: Fields)
    requires Text.Strip(t) != "" && Read(Text.Strip(t)).Some?
    ensures Ideals().Torn(t + Written(fields))
  {
    var e := Written(fields);
    WrittenPlain(fields);
    var between := StripJoin(t, e);
    var joined, first := Text.Strip(t + e), Read(Text.Strip(t)).value;
    if Read(joined).Some? {
      var v := Read(joined).value;
      EncRest(first, "", between + e);
      assert "" + (between + e) == between + e;
      EncUnique(first, v, between + e, "");
    }
  }

  lemma IdealsFrame(fields: Fields)
    ensures Ideals().FramedAt(fields)
  {
    WrittenPlain(fields);
    StripPlain(Written(fields));
    ReadsBack(JObj(fields));
    forall k | 0 < k < |Written(fields)| ensures Ideals().Torn(Written(fields)[..k]) {
      PartsAreTorn(fields, k);
    }
    forall t | Text.Strip(t) != "" && Read(Text.Strip(t)).Some? ensures Ideals().Torn(t + Written(fields)) {
      JoinsAreTorn(t, fields);
    }
  }

  lemma WrittenUnique(a: Fields, b: Fields)
    requires Written(a) == Written(b)
    ensures a == b
  {
    EncUnique(JObj(a), JObj(b), "", "");
  }

  function PlainSigner(): ApprovalSigning.Signer {
    ApprovalSigning.Signer((m: string) => seq(64, i => 'a'), (b: string) => b, "key")
  }

  /** Everything the theorems assume of SHA-256, HMAC, canonical_json and json.loads can be met, and all at once: a
      collision-free hash, an ideal MAC, an encoding that frames every object, and a signer its verifier matches. */
  lemma AssumptionsCanBeMet(k: Kernel.Config, ring: Authentication.KeyRing, c: Approval.Config)
    ensures Ideals().CollisionFree() && Ideals().Framed()
    ensures KernelOrigin.CollisionFree(k.(sha := Ideals().sha))
    ensures ring.(hmac := (key: string, f: Fields) => Written(f)).Ideal()
    ensures Approval.InjectiveBytes(c.(bytesOf := (f: Fields) => Some(Written(f))))
    ensures PlainSigner().Matches(c.(verifies := (sig: string, m: string) => true, fromHex := (text: string) => Some(text),
                                     str := (v: Json) => if v.JStr? then v.s else ""))
  {
    forall a, b | Written(a) == Written(b) ensures a == b {
      WrittenUnique(a, b);
    }
    forall f ensures Ideals().FramedAt(f) {
      IdealsFrame(f);
    }
  }
}
