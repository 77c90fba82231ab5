/** What the audit chain guarantees: acceptance characterised, genuine prefixes, anchors, crash recovery. */
module AuditTheorems {
  import opened Domain
  import opened JsonValues
  import opened Redaction
  import opened AuditChain
  import Text

  // ---------------------------------------------------------------- acceptance, without the running variables

  /** Every non-blank line is a JSON object. */
  predicate AllObjects(p: Primitives, lines: seq<string>) {
    forall i | 0 <= i < |lines| :: IsBlank(lines[i]) || IsObject(p, lines[i])
  }

  predicate IsObject(p: Primitives, line: string) {
    p.dec(Text.Strip(line)).Some? && p.dec(Text.Strip(line)).value.JObj?
  }

  /** The objects on the non-blank lines, in order. */
  function Entries(p: Primitives, lines: seq<string>): seq<Fields> {
    if lines == [] then []
    else if IsBlank(lines[0]) || !IsObject(p, lines[0]) then Entries(p, lines[1..])
    else [p.dec(Text.Strip(lines[0])).value.fields] + Entries(p, lines[1..])
  }

  function HashOf(p: Primitives, e: Fields): string {
    p.sha(BodyOf(e))
  }

  /** The hash the entry at position n must name as its predecessor. */
  function HashBefore(p: Primitives, es: seq<Fields>, n: nat): Option<string>
    requires n <= |es|
  {
    if n == 0 then None else Some(HashOf(p, es[n - 1]))
  }

  predicate LinkOk(p: Primitives, es: seq<Fields>, i: nat)
    requires i < |es|
  {
    LookAtEntry(p, es[i], HashBefore(p, es, i), i).Good?
  }

  predicate Linked(p: Primitives, es: seq<Fields>) {
    forall i | 0 <= i < |es| :: LinkOk(p, es, i)
  }

  function PosOf(p: Primitives, es: seq<Fields>, note: Option<int>): Pos {
    Pos(HashBefore(p, es, |es|), |es|,
        if note.Some? && 1 <= note.value <= |es| then Some(HashOf(p, es[note.value - 1])) else None)
  }

  lemma LinkedSnoc(p: Primitives, es: seq<Fields>, e: Fields)
    requires Linked(p, es)
    ensures Linked(p, es + [e]) <==> LookAtEntry(p, e, HashBefore(p, es, |es|), |es|).Good?
  {
    var es' := es + [e];
    assert LinkOk(p, es', |es|) == LookAtEntry(p, e, HashBefore(p, es, |es|), |es|).Good?;
    forall i | 0 <= i < |es| ensures LinkOk(p, es', i) {
      assert LinkOk(p, es, i);
    }
  }

  lemma LinkedPrefix(p: Primitives, es: seq<Fields>, more: seq<Fields>)
    requires Linked(p, es + more)
    ensures Linked(p, es)
  {
    forall i | 0 <= i < |es| ensures LinkOk(p, es, i) {
      assert LinkOk(p, es + more, i);
    }
  }

  lemma PosSnoc(p: Primitives, es: seq<Fields>, e: Fields, note: Option<int>)
    ensures Noted(PosOf(p, es, note), HashOf(p, e), note) == PosOf(p, es + [e], note)
  {
  }

  /** From a position reached by linked entries, the walk is intact exactly when the rest are objects that go on
      linking, and its result is then the position after all of them. */
  lemma {:induction false} WalkFrom(p: Primitives, done: seq<Fields>, lines: seq<string>, note: Option<int>)
    requires Linked(p, done)
    ensures WalkCharacterised(p, done, lines, note)
    decreases |lines|
  {
    if lines == [] {
      assert done + [] == done;
    } else {
      AllObjectsSplit(p, lines);
      if IsBlank(lines[0]) {
        WalkFrom(p, done, lines[1..], note);
      } else if IsObject(p, lines[0]) {
        var e := p.dec(Text.Strip(lines[0])).value.fields;
        LinkedSnoc(p, done, e);
        if Linked(p, done + [e]) {
          WalkFrom(p, done + [e], lines[1..], note);
        }
        WalkObject(p, done, lines, note, e);
      }
    }
  }

  predicate WalkCharacterised(p: Primitives, done: seq<Fields>, lines: seq<string>, note: Option<int>) {
    var l, es := Walk(p, lines, PosOf(p, done, note), note), done + Entries(p, lines);
    && (l.Intact? <==> AllObjects(p, lines) && Linked(p, es))
    && (l.Intact? ==> l.pos == PosOf(p, es, note))
  }

  lemma WalkObject(p: Primitives, done: seq<Fields>, lines: seq<string>, note: Option<int>, e: Fields)
    requires lines != [] && !IsBlank(lines[0]) && IsObject(p, lines[0]) && p.dec(Text.Strip(lines[0])).value.fields == e
    requires Linked(p, done + [e]) <==> LookAtEntry(p, e, HashBefore(p, done, |done|), |done|).Good?
    requires AllObjects(p, lines) <==> AllObjects(p, lines[1..])
    requires Linked(p, done + [e]) ==> WalkCharacterised(p, done + [e], lines[1..], note)
    ensures WalkCharacterised(p, done, lines, note)
  {
    var rest := Entries(p, lines[1..]);
    assert done + Entries(p, lines) == (done + [e]) + rest;
    if Linked(p, done + [e]) {
      PosSnoc(p, done, e, note);
    } else if Linked(p, (done + [e]) + rest) {
      LinkedPrefix(p, done + [e], rest);
    }
  }

  lemma AllObjectsSplit(p: Primitives, lines: seq<string>)
    requires lines != []
    ensures AllObjects(p, lines) <==> (IsBlank(lines[0]) || IsObject(p, lines[0])) && AllObjects(p, lines[1..])
  {
    var rest := lines[1..];
    if AllObjects(p, rest) {
      forall i | 0 < i < |lines| ensures IsBlank(lines[i]) || IsObject(p, lines[i]) {
        assert lines[i] == rest[i - 1];
      }
    }
  }

  /** Acceptance without an anchor: exactly the files whose non-blank lines are objects that link. */
  lemma AcceptedExactlyWhenLinked(p: Primitives, text: string, note: Option<int>)
    ensures var l := VerifyLinks(p, Some(text), note); var es := Entries(p, Lines(text));
            && (l.Intact? <==> AllObjects(p, Lines(text)) && Linked(p, es))
            && (l.Intact? ==> l.pos == PosOf(p, es, note))
  {
    WalkFrom(p, [], Lines(text), note);
    assert [] + Entries(p, Lines(text)) == Entries(p, Lines(text));
  }

  // ---------------------------------------------------------------- genuine prefixes

  /** The bodies one continuously running log produced, oldest first. */
  predicate IssuedChain(p: Primitives, bodies: seq<Fields>) {
    forall i | 0 <= i < |bodies| :: IssuedAt(p, bodies, i)
  }

  predicate IssuedAt(p: Primitives, bodies: seq<Fields>, i: nat)
    requires i < |bodies|
  {
    && JObj(bodies[i]).Finite()
    && bodies[i].Keys !! HASH_MAC_FIELDS
    && "seq" in bodies[i] && bodies[i]["seq"] == JInt(i)
    && Get(bodies[i], "previous_hash") == OptStr(if i == 0 then None else Some(p.sha(bodies[i - 1])))
  }

  /** The entry carries this body, its hash, and a MAC that verifies. */
  predicate Carries(p: Primitives, e: Fields, body: Fields) {
    BodyOf(e) == body && Get(e, "entry_hash") == JStr(p.sha(body)) && MacVerifies(p, e)
  }

  predicate MacVerifies(p: Primitives, e: Fields) {
    MacText(p, e) == p.hmac(WithHash(BodyOf(e), HashOf(p, e)))
  }

  /** The file decodes to exactly these bodies, each with its hash and MAC. */
  predicate DecodesTo(p: Primitives, lines: seq<string>, bodies: seq<Fields>) {
    && AllObjects(p, lines) && |Entries(p, lines)| == |bodies|
    && forall i | 0 <= i < |bodies| :: Carries(p, Entries(p, lines)[i], bodies[i])
  }

  /** Unforgeability, for this file: a MAC that verifies is one the log issued. */
  predicate OnlyIssuedMacs(p: Primitives, lines: seq<string>, bodies: seq<Fields>) {
    forall e | e in Entries(p, lines) :: MacVerifies(p, e) ==> BodyOf(e) in bodies
  }

  lemma LinkedEntryIsIssued(p: Primitives, es: seq<Fields>, bodies: seq<Fields>, i: nat)
    requires i < |es| && LinkOk(p, es, i) && IssuedChain(p, bodies)
    requires MacVerifies(p, es[i]) ==> BodyOf(es[i]) in bodies
    ensures i < |bodies| && Carries(p, es[i], bodies[i])
  {
    var j :| 0 <= j < |bodies| && bodies[j] == BodyOf(es[i]);
    assert IssuedAt(p, bodies, j);
    assert es[i]["seq"] == bodies[j]["seq"];
  }

  lemma CarriedEntriesLink(p: Primitives, es: seq<Fields>, bodies: seq<Fields>)
    requires IssuedChain(p, bodies) && |es| <= |bodies|
    requires forall i | 0 <= i < |es| :: Carries(p, es[i], bodies[i])
    ensures Linked(p, es)
  {
    forall i | 0 <= i < |es| ensures LinkOk(p, es, i) {
      assert IssuedAt(p, bodies, i);
      assert Carries(p, es[i], bodies[i]);
      assert Get(es[i], "previous_hash") == Get(bodies[i], "previous_hash");
      if i > 0 {
        assert Carries(p, es[i - 1], bodies[i - 1]);
      }
    }
  }

  /** The genuine-prefix theorem: a file in which only issued entries carry valid MACs is accepted exactly when it
      decodes to a prefix of what the log issued. So no entry can be altered, dropped, reordered or inserted --
      and, without an anchor, any truncation passes. */
  lemma AcceptedExactlyGenuinePrefixes(p: Primitives, text: string, bodies: seq<Fields>)
    requires IssuedChain(p, bodies) && OnlyIssuedMacs(p, Lines(text), bodies)
    ensures VerifyLinks(p, Some(text), None).Intact? <==>
            exists k: nat :: k <= |bodies| && DecodesTo(p, Lines(text), bodies[..k])
  {
    var lines := Lines(text);
    var es := Entries(p, lines);
    AcceptedExactlyWhenLinked(p, text, None);
    if AllObjects(p, lines) && Linked(p, es) {
      forall i | 0 <= i < |es| ensures i < |bodies| && Carries(p, es[i], bodies[i]) {
        assert LinkOk(p, es, i) && es[i] in es;
        LinkedEntryIsIssued(p, es, bodies, i);
      }
      if |es| > 0 {
        assert |es| - 1 < |bodies|;
      }
      assert DecodesTo(p, lines, bodies[..|es|]);
    }
    if k: nat :| k <= |bodies| && DecodesTo(p, lines, bodies[..k]) {
      forall i | 0 <= i < |es| ensures Carries(p, es[i], bodies[i]) {
        assert Carries(p, es[i], bodies[..k][i]);
      }
      CarriedEntriesLink(p, es, bodies);
    }
  }

  // ---------------------------------------------------------------- anchors

  lemma LinkedFacts(p: Primitives, es: seq<Fields>, i: nat)
    requires Linked(p, es) && i < |es|
    ensures JObj(BodyOf(es[i])).Finite()
    ensures Get(BodyOf(es[i]), "previous_hash") == OptStr(HashBefore(p, es, i))
    ensures Get(es[i], "entry_hash") == JStr(HashOf(p, es[i])) && MacVerifies(p, es[i])
  {
    assert LinkOk(p, es, i);
  }

  /** The two stored entries agree on everything verification reads. */
  predicate SameEntry(p: Primitives, x: Fields, y: Fields) {
    BodyOf(x) == BodyOf(y) && Get(x, "entry_hash") == Get(y, "entry_hash") && MacText(p, x) == MacText(p, y)
  }

  lemma SameHashSameEntry(p: Primitives, a: seq<Fields>, b: seq<Fields>, i: nat)
    requires p.CollisionFree() && Linked(p, a) && Linked(p, b) && i < |a| && i < |b|
    requires HashOf(p, a[i]) == HashOf(p, b[i])
    ensures SameEntry(p, a[i], b[i])
    ensures i > 0 ==> HashOf(p, a[i - 1]) == HashOf(p, b[i - 1])
  {
    LinkedFacts(p, a, i);
    LinkedFacts(p, b, i);
    assert BodyOf(a[i]) == BodyOf(b[i]);
  }

  /** Two linked chains that agree on one hash at one position agree on every entry up to it. */
  lemma {:induction false} HashFixesHistory(p: Primitives, a: seq<Fields>, b: seq<Fields>, n: nat)
    requires p.CollisionFree() && Linked(p, a) && Linked(p, b)
    requires 0 < n <= |a| && n <= |b| && HashOf(p, a[n - 1]) == HashOf(p, b[n - 1])
    ensures forall i | 0 <= i < n :: SameEntry(p, a[i], b[i])
  {
    SameHashSameEntry(p, a, b, n - 1);
    if n > 1 {
      HashFixesHistory(p, a, b, n - 1);
    }
  }

  /** (head, n) is what head() would report for this file. */
  predicate IsHeadOf(p: Primitives, text: string, head: string, n: nat) {
    var l := VerifyLinks(p, Some(text), None);
    l.Intact? && l.pos.last == Some(head) && l.pos.count == n
  }

  /** What verify_prefix answers for a whole anchor on an existing file, in terms of the entries. */
  lemma PrefixAnswer(p: Primitives, text: string, head: string, n: nat)
    requires n >= 1
    ensures var es := Entries(p, Lines(text));
            VerifyPrefix(p, Some(text), Some(head), Some(n)).ok <==>
            AllObjects(p, Lines(text)) && Linked(p, es) && n <= |es| && HashOf(p, es[n - 1]) == head
  {
    AcceptedExactlyWhenLinked(p, text, Some(n));
  }

  /** What verify_integrity answers for a whole anchor on an existing file. */
  lemma ExactAnswer(p: Primitives, text: string, head: string, n: nat)
    requires n >= 1
    ensures var es := Entries(p, Lines(text));
            VerifyIntegrity(p, Some(text), Some(head), Some(n)).ok <==>
            AllObjects(p, Lines(text)) && Linked(p, es) && n == |es| && HashOf(p, es[n - 1]) == head
  {
    AcceptedExactlyWhenLinked(p, text, None);
  }

  lemma HeadAnswer(p: Primitives, text: string, head: string, n: nat)
    requires n >= 1
    ensures var es := Entries(p, Lines(text));
            IsHeadOf(p, text, head, n) <==>
            AllObjects(p, Lines(text)) && Linked(p, es) && n == |es| && HashOf(p, es[n - 1]) == head
  {
    AcceptedExactlyWhenLinked(p, text, None);
  }

  /** Anchor binding: a file that verify_prefix accepts against the head of some valid chain starts with exactly
      that chain -- same bodies, same hashes, same MACs. */
  lemma AnchorBindsThePrefix(p: Primitives, text: string, anchored: string, head: string, n: nat)
    requires p.CollisionFree() && n >= 1 && IsHeadOf(p, anchored, head, n)
    requires VerifyPrefix(p, Some(text), Some(head), Some(n)).ok
    ensures var es, past := Entries(p, Lines(text)), Entries(p, Lines(anchored));
            |past| == n <= |es| && forall i | 0 <= i < n :: SameEntry(p, es[i], past[i])
  {
    PrefixAnswer(p, text, head, n);
    HeadAnswer(p, anchored, head, n);
    HashFixesHistory(p, Entries(p, Lines(text)), Entries(p, Lines(anchored)), n);
  }

  /** On an existing file and a whole anchor the exact check is the prefix check plus the count. */
  lemma ExactIsPrefixPlusCount(p: Primitives, text: string, head: string, n: nat)
    requires n >= 1
    ensures VerifyIntegrity(p, Some(text), Some(head), Some(n)).ok <==>
            VerifyPrefix(p, Some(text), Some(head), Some(n)).ok && |Entries(p, Lines(text))| == n
  {
    PrefixAnswer(p, text, head, n);
    ExactAnswer(p, text, head, n);
  }

  /** The exact check looks at the file before the anchor: a deleted log passes against every anchor, while the
      prefix check refuses it. */
  lemma MissingFilePassesEveryExactAnchor(p: Primitives, head: Option<string>, n: Option<int>)
    ensures VerifyIntegrity(p, None, head, n) == Report(true, Empty, None, 0)
    ensures n.Some? && n.value >= 1 ==> !VerifyPrefix(p, None, head, n).ok
  {
  }

  /** Half an anchor is an answer to the exact check and never to the prefix check. */
  lemma HalfAnchor(p: Primitives, text: string, head: string, n: nat)
    requires n >= 1 && IsHeadOf(p, text, head, n)
    ensures VerifyIntegrity(p, Some(text), None, Some(n)).ok && VerifyIntegrity(p, Some(text), Some(head), None).ok
    ensures !VerifyPrefix(p, Some(text), None, Some(n)).ok && !VerifyPrefix(p, Some(text), Some(head), None).ok
  {
  }
}
