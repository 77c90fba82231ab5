/** Redaction at the audit log's write point, axiomgate_kernel/redaction.py. The pattern rules of
    redact_secrets are one abstract string function; the field-name rule is modelled in full. */
module Redaction {
  import opened Domain
  import opened JsonValues

  /** A record as callers pass it: ordered dictionaries, lists and tuples, with string keys. */
  datatype PyVal =
    | PNone | PBool(b: bool) | PInt(n: int) | PStr(s: string)
    | PFloat(negative: bool, mantissa: nat, exponent: int)
    | PNonFinite(text: string)
    | PList(items: seq<PyVal>)
    | PTuple(items: seq<PyVal>)
    | PDict(entries: seq<Item>)

  datatype Item = Item(key: string, value: PyVal)

  const MASK := "[REDACTED_SECRET:field-name]"

  const SENSITIVE_PARTS: seq<string> :=
    ["password", "passwd", "secret", "token", "apikey", "authorization", "credential", "privatekey", "passphrase",
     "sessionkey", "accesskey"]

  /** What one character of a key contributes to its normal form: its lower-case [a-z0-9] part. Two non-ASCII
      letters lower-case into that range: the Kelvin sign and the dotted capital I. */
  function NormalChar(c: char): string {
    if 'a' <= c <= 'z' || '0' <= c <= '9' then [c]
    else if 'A' <= c <= 'Z' then [c - 'A' + 'a']
    else if c == '\U{212A}' then "k"
    else if c == '\U{0130}' then "i"
    else ""
  }

  function Normalise(key: string): string {
    if key == "" then "" else NormalChar(key[0]) + Normalise(key[1..])
  }

  predicate Contains(text: string, part: string) {
    exists i :: 0 <= i <= |text| && part <= text[i..]
  }

  predicate IsSensitiveKey(key: string) {
    exists part :: part in SENSITIVE_PARTS && Contains(Normalise(key), part)
  }

  /** redact_dict, as the value that is then encoded. scrub is redact_secrets. */
  function Redact(scrub: string -> string, v: PyVal): Json {
    match v
    case PNone => JNull
    case PBool(b) => JBool(b)
    case PInt(n) => JInt(n)
    case PFloat(negative, mantissa, exponent) => JFloat(negative, mantissa, exponent)
    case PNonFinite(text) => JNonFinite(text)
    case PStr(s) => JStr(scrub(s))
    case PList(items) => JArr(RedactAll(scrub, items))
    case PTuple(items) => JArr(RedactAll(scrub, items))
    case PDict(entries) => JObj(RedactEntries(scrub, entries))
  }

  function RedactAll(scrub: string -> string, items: seq<PyVal>): (r: seq<Json>)
    ensures |r| == |items|
  {
    if items == [] then [] else RedactAll(scrub, items[..|items| - 1]) + [Redact(scrub, items[|items| - 1])]
  }

  /** Two keys that scrub to the same text share one slot, and the later entry wins. */
  function RedactEntries(scrub: string -> string, entries: seq<Item>): Fields {
    if entries == [] then map[]
    else
      var e := entries[|entries| - 1];
      RedactEntries(scrub, entries[..|entries| - 1])
        [scrub(e.key) := if IsSensitiveKey(e.key) then JStr(MASK) else Redact(scrub, e.value)]
  }

  /** The recursion of redact_dict with its loops. */
  method RedactValue(scrub: string -> string, v: PyVal) returns (out: Json)
    ensures out == Redact(scrub, v)
    decreases v
  {
    match v
    case PDict(entries) =>
      var fields: Fields := map[];
      for i := 0 to |entries|
        invariant fields == RedactEntries(scrub, entries[..i])
      {
        assert entries[..i + 1][..i] == entries[..i];
        if IsSensitiveKey(entries[i].key) {
          fields := fields[scrub(entries[i].key) := JStr(MASK)];
        } else {
          var inner := RedactValue(scrub, entries[i].value);
          fields := fields[scrub(entries[i].key) := inner];
        }
      }
      assert entries[..|entries|] == entries;
      out := JObj(fields);
    case PList(items) =>
      var all := RedactItems(scrub, v, items);
      out := JArr(all);
    case PTuple(items) =>
      var all := RedactItems(scrub, v, items);
      out := JArr(all);
    case PStr(s) => out := JStr(scrub(s));
    case PNone => out := JNull;
    case PBool(b) => out := JBool(b);
    case PInt(n) => out := JInt(n);
    case PFloat(negative, mantissa, exponent) => out := JFloat(negative, mantissa, exponent);
    case PNonFinite(text) => out := JNonFinite(text);
  }

  method RedactItems(scrub: string -> string, ghost parent: PyVal, items: seq<PyVal>) returns (out: seq<Json>)
    requires forall i | 0 <= i < |items| :: items[i] < parent
    ensures out == RedactAll(scrub, items)
    decreases parent, 0
  {
    out := [];
    for i := 0 to |items|
      invariant out == RedactAll(scrub, items[..i])
    {
      assert items[..i + 1][..i] == items[..i];
      var inner := RedactValue(scrub, items[i]);
      out := out + [inner];
    }
    assert items[..|items|] == items;
  }

  // ---------------------------------------------------------------- what is written, said without the recursion

  /** Entry i is the last whose key scrubs to its text, so its slot is its own. */
  predicate Decides(scrub: string -> string, entries: seq<Item>, i: nat) {
    i < |entries| && forall j | i < j < |entries| :: scrub(entries[j].key) != scrub(entries[i].key)
  }

  /** What is written for a value: numbers, booleans, None and non-finite numbers as they are, strings scrubbed, lists
      and tuples item by item in order, and of a dictionary a slot for every scrubbed key, which the last entry with it
      decides: the mask under a sensitive key, otherwise what is written for its value. */
  predicate WrittenAs(scrub: string -> string, v: PyVal, j: Json) {
    match v
    case PNone => j == JNull
    case PBool(b) => j == JBool(b)
    case PInt(n) => j == JInt(n)
    case PFloat(negative, mantissa, exponent) => j == JFloat(negative, mantissa, exponent)
    case PNonFinite(text) => j == JNonFinite(text)
    case PStr(s) => j == JStr(scrub(s))
    case PList(items) => j.JArr? && |j.items| == |items| && forall i | 0 <= i < |items| :: WrittenAs(scrub, items[i], j.items[i])
    case PTuple(items) => j.JArr? && |j.items| == |items| && forall i | 0 <= i < |items| :: WrittenAs(scrub, items[i], j.items[i])
    case PDict(entries) =>
      && j.JObj? && (forall k | k in j.fields :: Slotted(scrub, entries, k))
      && forall i | 0 <= i < |entries| ::
           && scrub(entries[i].key) in j.fields
           && (Decides(scrub, entries, i) ==>
                 if IsSensitiveKey(entries[i].key) then j.fields[scrub(entries[i].key)] == JStr("[REDACTED_SECRET:field-name]")
                 else WrittenAs(scrub, entries[i].value, j.fields[scrub(entries[i].key)]))
  }

  predicate Slotted(scrub: string -> string, entries: seq<Item>, k: string) {
    exists i :: 0 <= i < |entries| && scrub(entries[i].key) == k
  }

  /** The slot of an entry that decides it. */
  predicate SlotIs(scrub: string -> string, e: Item, j: Json) {
    j == if IsSensitiveKey(e.key) then JStr(MASK) else Redact(scrub, e.value)
  }

  lemma SlottedSnoc(scrub: string -> string, entries: seq<Item>, k: string)
    requires entries != []
    ensures Slotted(scrub, entries, k) <==> scrub(entries[|entries| - 1].key) == k || Slotted(scrub, entries[..|entries| - 1], k)
  {
    var n := |entries| - 1;
    if i :| 0 <= i < n && scrub(entries[..n][i].key) == k { assert scrub(entries[i].key) == k; }
    if i :| 0 <= i < |entries| && scrub(entries[i].key) == k && i < n { assert scrub(entries[..n][i].key) == k; }
  }

  lemma {:induction false} SlotExists(scrub: string -> string, entries: seq<Item>, k: string)
    ensures k in RedactEntries(scrub, entries) <==> Slotted(scrub, entries, k)
  {
    if entries != [] {
      SlotExists(scrub, entries[..|entries| - 1], k);
      SlottedSnoc(scrub, entries, k);
    }
  }

  lemma {:induction false} SlotDecided(scrub: string -> string, entries: seq<Item>, i: nat)
    requires Decides(scrub, entries, i)
    ensures scrub(entries[i].key) in RedactEntries(scrub, entries)
    ensures SlotIs(scrub, entries[i], RedactEntries(scrub, entries)[scrub(entries[i].key)])
    decreases |entries|
  {
    var n := |entries| - 1;
    if i < n {
      assert scrub(entries[n].key) != scrub(entries[i].key);
      assert forall j | i < j < n :: entries[..n][j] == entries[j];
      SlotDecided(scrub, entries[..n], i);
    }
  }

  lemma SlotsOf(scrub: string -> string, entries: seq<Item>)
    ensures forall k :: k in RedactEntries(scrub, entries) <==> Slotted(scrub, entries, k)
    ensures forall i | 0 <= i < |entries| && Decides(scrub, entries, i) ::
              && scrub(entries[i].key) in RedactEntries(scrub, entries)
              && SlotIs(scrub, entries[i], RedactEntries(scrub, entries)[scrub(entries[i].key)])
  {
    forall k ensures k in RedactEntries(scrub, entries) <==> Slotted(scrub, entries, k) { SlotExists(scrub, entries, k); }
    forall i | 0 <= i < |entries| && Decides(scrub, entries, i)
      ensures scrub(entries[i].key) in RedactEntries(scrub, entries)
              && SlotIs(scrub, entries[i], RedactEntries(scrub, entries)[scrub(entries[i].key)])
    {
      SlotDecided(scrub, entries, i);
    }
  }

  lemma {:induction false} RedactedAt(scrub: string -> string, items: seq<PyVal>, i: nat)
    requires i < |items|
    ensures RedactAll(scrub, items)[i] == Redact(scrub, items[i])
  {
    if i < |items| - 1 {
      RedactedAt(scrub, items[..|items| - 1], i);
    }
  }

  lemma {:induction false} RedactWrites(scrub: string -> string, v: PyVal)
    ensures WrittenAs(scrub, v, Redact(scrub, v))
    decreases v
  {
    match v
    case PList(items) => ItemsWritten(scrub, v, items);
    case PTuple(items) => ItemsWritten(scrub, v, items);
    case PDict(entries) =>
      SlotsOf(scrub, entries);
      forall i | 0 <= i < |entries| && !IsSensitiveKey(entries[i].key)
        ensures WrittenAs(scrub, entries[i].value, Redact(scrub, entries[i].value))
      {
        RedactWrites(scrub, entries[i].value);
      }
    case _ =>
  }

  lemma {:induction false} ItemsWritten(scrub: string -> string, parent: PyVal, items: seq<PyVal>)
    requires forall i | 0 <= i < |items| :: items[i] < parent
    ensures forall i | 0 <= i < |items| :: WrittenAs(scrub, items[i], RedactAll(scrub, items)[i])
    decreases parent, 0
  {
    forall i | 0 <= i < |items| ensures WrittenAs(scrub, items[i], RedactAll(scrub, items)[i]) {
      RedactedAt(scrub, items, i);
      RedactWrites(scrub, items[i]);
    }
  }

  /** Some entry decides every slot: the last one. */
  lemma {:induction false} LastDecides(scrub: string -> string, entries: seq<Item>, k: string) returns (i: nat)
    requires Slotted(scrub, entries, k)
    ensures Decides(scrub, entries, i) && scrub(entries[i].key) == k
    decreases |entries|
  {
    var n := |entries| - 1;
    if scrub(entries[n].key) == k { return n; }
    var before := entries[..n];
    var at :| 0 <= at < |entries| && scrub(entries[at].key) == k;
    assert before[at] == entries[at];
    i := LastDecides(scrub, before, k);
    forall j | i < j < |entries| ensures scrub(entries[j].key) != k {
      if j < n { assert before[j] == entries[j]; }
    }
  }

  lemma {:induction false} WrittenOnce(scrub: string -> string, v: PyVal, a: Json, b: Json)
    requires WrittenAs(scrub, v, a) && WrittenAs(scrub, v, b)
    ensures a == b
    decreases v
  {
    match v
    case PList(items) =>
      forall i | 0 <= i < |items| ensures a.items[i] == b.items[i] { WrittenOnce(scrub, items[i], a.items[i], b.items[i]); }
    case PTuple(items) =>
      forall i | 0 <= i < |items| ensures a.items[i] == b.items[i] { WrittenOnce(scrub, items[i], a.items[i], b.items[i]); }
    case PDict(entries) =>
      forall k ensures k in a.fields <==> k in b.fields {
        if k in a.fields { assert Slotted(scrub, entries, k); }
        if k in b.fields { assert Slotted(scrub, entries, k); }
      }
      forall k | k in a.fields ensures a.fields[k] == b.fields[k] {
        var i := LastDecides(scrub, entries, k);
        if !IsSensitiveKey(entries[i].key) { WrittenOnce(scrub, entries[i].value, a.fields[k], b.fields[k]); }
      }
      assert a.fields == b.fields;
    case _ =>
  }

  /** Redaction is exactly that: nothing else is changed, dropped, added or reordered, at any depth. */
  lemma RedactsExactly(scrub: string -> string, v: PyVal, j: Json)
    ensures Redact(scrub, v) == j <==> WrittenAs(scrub, v, j)
  {
    RedactWrites(scrub, v);
    if WrittenAs(scrub, v, j) { WrittenOnce(scrub, v, Redact(scrub, v), j); }
  }

  // ---------------------------------------------------------------- along a path

  /** The value that a path of positions leads to. */
  function Down(v: PyVal, path: seq<nat>): Option<PyVal> {
    if path == [] then Some(v)
    else
      match v
      case PList(items) => if path[0] < |items| then Down(items[path[0]], path[1..]) else None
      case PTuple(items) => if path[0] < |items| then Down(items[path[0]], path[1..]) else None
      case PDict(entries) => if path[0] < |entries| then Down(entries[path[0]].value, path[1..]) else None
      case _ => None
  }

  /** No entry on the path has a sensitive key, and each decides its slot. */
  predicate InTheOpen(scrub: string -> string, v: PyVal, path: seq<nat>) {
    path != [] ==>
      match v
      case PList(items) => path[0] < |items| ==> InTheOpen(scrub, items[path[0]], path[1..])
      case PTuple(items) => path[0] < |items| ==> InTheOpen(scrub, items[path[0]], path[1..])
      case PDict(entries) =>
        path[0] < |entries| ==>
          && !IsSensitiveKey(entries[path[0]].key) && Decides(scrub, entries, path[0])
          && InTheOpen(scrub, entries[path[0]].value, path[1..])
      case _ => true
  }

  /** What stands in the written value where the path leads in the record. */
  function Found(scrub: string -> string, v: PyVal, path: seq<nat>, j: Json): Option<Json> {
    if path == [] then Some(j)
    else
      match v
      case PList(items) =>
        if j.JArr? && path[0] < |items| && path[0] < |j.items| then Found(scrub, items[path[0]], path[1..], j.items[path[0]]) else None
      case PTuple(items) =>
        if j.JArr? && path[0] < |items| && path[0] < |j.items| then Found(scrub, items[path[0]], path[1..], j.items[path[0]]) else None
      case PDict(entries) =>
        if j.JObj? && path[0] < |entries| && scrub(entries[path[0]].key) in j.fields
        then Found(scrub, entries[path[0]].value, path[1..], j.fields[scrub(entries[path[0]].key)]) else None
      case _ => None
  }

  /** Along every path that passes no sensitive key, a record is written as it is, strings scrubbed. */
  lemma {:induction false} PreservedInTheOpen(scrub: string -> string, v: PyVal, path: seq<nat>)
    requires Down(v, path).Some? && InTheOpen(scrub, v, path)
    ensures var found := Found(scrub, v, path, Redact(scrub, v));
            found.Some? && WrittenAs(scrub, Down(v, path).value, found.value)
    decreases |path|
  {
    RedactWrites(scrub, v);
    if path != [] {
      match v
      case PList(items) => RedactedAt(scrub, items, path[0]); PreservedInTheOpen(scrub, items[path[0]], path[1..]);
      case PTuple(items) => RedactedAt(scrub, items, path[0]); PreservedInTheOpen(scrub, items[path[0]], path[1..]);
      case PDict(entries) => SlotsOf(scrub, entries); PreservedInTheOpen(scrub, entries[path[0]].value, path[1..]);
      case _ =>
    }
  }

  // ---------------------------------------------------------------- non-interference

  /** The two values differ at most in what stands under sensitive keys, at any depth. */
  predicate AgreeOutsideSecrets(a: PyVal, b: PyVal) {
    match (a, b)
    case (PList(x), PList(y)) => AllAgree(x, y)
    case (PTuple(x), PTuple(y)) => AllAgree(x, y)
    case (PDict(x), PDict(y)) => EntriesAgree(x, y)
    case _ => a == b
  }

  predicate AllAgree(a: seq<PyVal>, b: seq<PyVal>) {
    |a| == |b| && forall i | 0 <= i < |a| :: AgreeOutsideSecrets(a[i], b[i])
  }

  predicate EntriesAgree(a: seq<Item>, b: seq<Item>) {
    |a| == |b| &&
    forall i | 0 <= i < |a| :: a[i].key == b[i].key && (IsSensitiveKey(a[i].key) || AgreeOutsideSecrets(a[i].value, b[i].value))
  }

  lemma {:induction false} RedactionHidesSecrets(scrub: string -> string, a: PyVal, b: PyVal)
    requires AgreeOutsideSecrets(a, b)
    ensures Redact(scrub, a) == Redact(scrub, b)
    decreases a
  {
    match (a, b)
    case (PList(x), PList(y)) => AllHidden(scrub, a, x, y);
    case (PTuple(x), PTuple(y)) => AllHidden(scrub, a, x, y);
    case (PDict(x), PDict(y)) => EntriesHidden(scrub, a, x, y);
    case _ =>
  }

  lemma {:induction false} AllHidden(scrub: string -> string, parent: PyVal, x: seq<PyVal>, y: seq<PyVal>)
    requires AllAgree(x, y) && forall i | 0 <= i < |x| :: x[i] < parent
    ensures RedactAll(scrub, x) == RedactAll(scrub, y)
    decreases parent, 0, |x|
  {
    if x != [] {
      var n := |x| - 1;
      AllHidden(scrub, parent, x[..n], y[..n]);
      RedactionHidesSecrets(scrub, x[n], y[n]);
    }
  }

  lemma {:induction false} EntriesHidden(scrub: string -> string, parent: PyVal, x: seq<Item>, y: seq<Item>)
    requires EntriesAgree(x, y) && forall i | 0 <= i < |x| :: x[i].value < parent
    ensures RedactEntries(scrub, x) == RedactEntries(scrub, y)
    decreases parent, 0, |x|
  {
    if x != [] {
      var n := |x| - 1;
      EntriesHidden(scrub, parent, x[..n], y[..n]);
      if !IsSensitiveKey(x[n].key) {
        RedactionHidesSecrets(scrub, x[n].value, y[n].value);
      }
    }
  }

  // ---------------------------------------------------------------- the field-name rule

  lemma {:induction false} NormaliseJoins(a: string, b: string)
    ensures Normalise(a + b) == Normalise(a) + Normalise(b)
  {
    if a == "" {
      assert a + b == b;
    } else {
      assert (a + b)[1..] == a[1..] + b;
      NormaliseJoins(a[1..], b);
    }
  }

  lemma ContainsExtends(pre: string, text: string, post: string, part: string)
    requires Contains(text, part)
    ensures Contains(pre + text + post, part)
  {
    var i :| 0 <= i <= |text| && part <= text[i..];
    assert (pre + text + post)[|pre| + i..] == text[i..] + post;
  }

  /** A sensitive name stays sensitive inside any longer name: prefixes and suffixes cannot hide it. */
  lemma SensitiveInsideAnyName(pre: string, key: string, post: string)
    requires IsSensitiveKey(key)
    ensures IsSensitiveKey(pre + key + post)
  {
    var part :| part in SENSITIVE_PARTS && Contains(Normalise(key), part);
    NormaliseJoins(pre, key);
    NormaliseJoins(pre + key, post);
    ContainsExtends(Normalise(pre), Normalise(key), Normalise(post), part);
  }

  /** Characters that normalise away -- separators, punctuation, other alphabets -- make no difference. */
  lemma SeparatorsMakeNoDifference(a: string, sep: string, b: string)
    requires Normalise(sep) == ""
    ensures IsSensitiveKey(a + sep + b) == IsSensitiveKey(a + b)
  {
    NormaliseJoins(a, sep);
    NormaliseJoins(a + sep, b);
    NormaliseJoins(a, b);
    assert Normalise(a) + "" == Normalise(a);
    assert Normalise(a + sep + b) == Normalise(a + b);
  }
  /** A field name counts as sensitive exactly when its normal form contains one of these eleven words. */
  lemma SensitiveExactlyWhen(key: string)
    ensures IsSensitiveKey(key) <==>
            exists i, part :: 0 <= i <= |Normalise(key)| && part <= Normalise(key)[i..] &&
              part in ["password", "passwd", "secret", "token", "apikey", "authorization", "credential", "privatekey",
                       "passphrase", "sessionkey", "accesskey"]
  {
    if IsSensitiveKey(key) {
      var part :| part in SENSITIVE_PARTS && Contains(Normalise(key), part);
      var i :| 0 <= i <= |Normalise(key)| && part <= Normalise(key)[i..];
    }
  }

  /** b is a with some ASCII capitals written small. */
  predicate SmallerLetters(a: string, b: string) {
    |a| == |b| && forall i | 0 <= i < |a| :: b[i] == a[i] || ('A' <= a[i] <= 'Z' && b[i] == a[i] - 'A' + 'a')
  }

  /** Capitals make no difference; and small letters and digits are the normal form. */
  lemma {:induction false} CaseMakesNoDifference(a: string, b: string)
    requires SmallerLetters(a, b)
    ensures Normalise(a) == Normalise(b) && IsSensitiveKey(a) == IsSensitiveKey(b)
    ensures (forall i | 0 <= i < |a| :: 'a' <= a[i] <= 'z' || '0' <= a[i] <= '9') ==> Normalise(a) == a
  {
    if a != "" {
      CaseMakesNoDifference(a[1..], b[1..]);
      assert a == [a[0]] + a[1..];
    }
  }
}
