/** JSON values as json.loads returns them. A finite float is a sign and a dyadic
    fraction, mantissa * 2^exponent, as binary floating point stores it; object key order is not observable. */
module JsonValues {
  import opened Domain

  datatype Json =
    | JNull
    | JBool(b: bool)
    | JInt(n: int)
    | JFloat(negative: bool, mantissa: nat, exponent: int)
    | JNonFinite(text: string)      // NaN and the infinities, which json.loads accepts and canonical_json refuses
    | JStr(s: string)
    | JArr(items: seq<Json>)
    | JObj(fields: map<string, Json>)
  {
    /** Python truthiness of a decoded value. */
    predicate Truthy() {
      match this
      case JNull => false
      case JBool(b) => b
      case JInt(n) => n != 0
      case JFloat(_, mantissa, _) => mantissa != 0
      case JNonFinite(_) => true
      case JStr(s) => s != ""
      case JArr(items) => items != []
      case JObj(fields) => fields != map[]
    }

    predicate NonEmptyString() {
      JStr? && s != ""
    }

    /** canonical_json accepts the value; floats are in lowest terms, so that each has one form and one text. */
    predicate Finite() {
      match this
      case JNonFinite(_) => false
      case JFloat(_, mantissa, exponent) => LowestTerms(mantissa, exponent)
      case JArr(items) => forall i | 0 <= i < |items| :: items[i].Finite()
      case JObj(fields) => forall k | k in fields :: fields[k].Finite()
      case _ => true
    }

    /** Python's == against an int: 3, 3.0 and True compare by value. */
    predicate EqualsInt(k: int) {
      match this
      case JBool(b) => k == if b then 1 else 0
      case JInt(n) => n == k
      case JFloat(negative, mantissa, exponent) => WholeFloat(negative, mantissa, exponent) == Some(k)
      case _ => false
    }

    /** Usable as a dictionary key: everything json.loads returns except lists and objects. */
    predicate Hashable() {
      !JArr? && !JObj?
    }
  }

  function Power2(n: nat): (p: nat)
    ensures p > 0
  {
    if n == 0 then 1 else 2 * Power2(n - 1)
  }

  predicate LowestTerms(mantissa: nat, exponent: int) {
    if mantissa == 0 then exponent == 0 else mantissa % 2 == 1
  }

  /** The integer a float equals, if any. */
  function WholeFloat(negative: bool, mantissa: nat, exponent: int): Option<int> {
    var sign := if negative then -1 else 1;
    if exponent >= 0 then Some(sign * (mantissa * Power2(exponent)))
    else if mantissa % Power2(-exponent) == 0 then Some(sign * (mantissa / Power2(-exponent)))
    else None
  }

  type Fields = map<string, Json>

  /** dict.get without a default: a missing key reads as None. */
  function Get(d: Fields, key: string): Json {
    if key in d then d[key] else JNull
  }

  /** An optional string as it is stored in a record. */
  function OptStr(s: Option<string>): Json {
    if s.None? then JNull else JStr(s.value)
  }
  /** What Python takes for false: None, False, zero of either kind, and everything empty. */
  lemma TruthyExactlyWhen(v: Json)
    ensures v.Truthy() <==>
            && v != JNull && v != JBool(false) && v != JInt(0) && !(v.JFloat? && v.mantissa == 0)
            && v != JStr("") && v != JArr([]) && v != JObj(map[])
  {
  }

  /** A float equals an integer exactly when the two agree once the fraction is cleared. */
  lemma FloatEqualsIntExactlyWhen(negative: bool, mantissa: nat, exponent: int, k: int)
    ensures JFloat(negative, mantissa, exponent).EqualsInt(k) <==>
            var size := if negative then -k else k;
            if exponent >= 0 then size == mantissa * Power2(exponent) else mantissa == size * Power2(-exponent)
  {
    if exponent < 0 {
      QuotientExactlyWhen(mantissa, if negative then -k else k, Power2(-exponent));
    }
  }

  lemma QuotientExactlyWhen(m: nat, q: int, p: nat)
    requires p > 0
    ensures m == q * p <==> m % p == 0 && m / p == q
  {
    assert m == p * (m / p) + m % p;
    SmallMultiple(q - m / p, p);
    assert (q - m / p) * p == q * p - p * (m / p);
  }

  lemma SmallMultiple(x: int, p: nat)
    requires p > 0
    ensures 0 <= x * p < p ==> x == 0
  {
    assert x * p == (x - 1) * p + p;
  }
}
