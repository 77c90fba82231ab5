/** What verification answers, told without the walk: which entry links, which fault a broken file shows, and what an
    anchor is told about a file that is intact. */
module AuditFaults {
  import opened Domain
  import opened JsonValues
  import opened Digests
  import opened AuditChain
  import opened AuditTheorems
  import Text

  // ---------------------------------------------------------------- one entry

  /** The content an entry hashes: everything but the hash and the MAC. */
  function Content(e: Fields): Fields {
    e - {"entry_hash", "mac"}
  }

  /** The MAC that belongs to the content and its hash, and the text that stands for it in the entry. */
  function ProperMac(p: Primitives, e: Fields): string {
    p.hmac(Content(e)["entry_hash" := JStr(p.sha(Content(e)))])
  }

  function GivenMac(p: Primitives, e: Fields): string {
    if "mac" in e then p.str(e["mac"]) else ""
  }

  /** An entry links at position n after this hash exactly when it names the hash and the position, its content is
      canonical, and it carries the content's hash and MAC. */
  lemma LinksExactlyWhen(p: Primitives, e: Fields, last: Option<string>, n: nat)
    ensures LookAtEntry(p, e, last, n).Good? <==>
            && Get(e, "previous_hash") == (if last.None? then JNull else JStr(last.value))
            && "seq" in e && e["seq"].EqualsInt(n) && JObj(Content(e)).Finite()
            && Get(e, "entry_hash") == JStr(p.sha(Content(e))) && GivenMac(p, e) == ProperMac(p, e)
    ensures LookAtEntry(p, e, last, n).Good? ==> LookAtEntry(p, e, last, n) == Good(e, p.sha(Content(e)))
  {
  }

  /** What is said of an entry: the first thing that is wrong with it. A content that is not canonical, and a MAC of the
      right length that is not ASCII, cannot be judged at all. */
  lemma FaultTold(p: Primitives, e: Fields, last: Option<string>, n: nat)
    ensures var look := LookAtEntry(p, e, last, n);
            if Get(e, "previous_hash") != (if last.None? then JNull else JStr(last.value)) then look == Wrong(PreviousHashMismatch)
            else if "seq" !in e then look == Wrong(LegacyFormat)
            else if !e["seq"].EqualsInt(n) then look == Wrong(SeqMismatch)
            else if !JObj(Content(e)).Finite() then look == Unjudgeable
            else if Get(e, "entry_hash") != JStr(p.sha(Content(e))) then look == Wrong(EntryHashMismatch)
            else if GivenMac(p, e) == ProperMac(p, e) then look == Good(e, p.sha(Content(e)))
            else if |GivenMac(p, e)| == |ProperMac(p, e)| && (exists i :: 0 <= i < |GivenMac(p, e)| && GivenMac(p, e)[i] as int >= 128)
            then look == Unjudgeable
            else look == Wrong(MacMismatch)
  {
  }

  // ---------------------------------------------------------------- a whole file

  /** The first m lines are accepted after these entries. */
  predicate GoodUntil(p: Primitives, done: seq<Fields>, lines: seq<string>, m: nat) {
    m <= |lines| && AllObjects(p, lines[..m]) && Linked(p, done + Entries(p, lines[..m]))
  }

  /** The first of several accepted lines, when it is not blank: its entry links, and the others are accepted after it. */
  lemma FirstLinks(p: Primitives, done: seq<Fields>, lines: seq<string>, m: nat, e: Fields)
    requires 0 < m && GoodUntil(p, done, lines, m) && !IsBlank(lines[0])
    requires IsObject(p, lines[0]) && e == p.dec(Text.Strip(lines[0])).value.fields
    ensures done + Entries(p, lines[..m]) == (done + [e]) + Entries(p, lines[1..][..m - 1])
    ensures LookAtEntry(p, e, HashBefore(p, done, |done|), |done|) == Good(e, HashOf(p, e))
    ensures GoodUntil(p, done + [e], lines[1..], m - 1)
  {
    AllObjectsSplit(p, lines[..m]);
    var es := done + Entries(p, lines[..m]);
    assert lines[..m][0] == lines[0] && lines[..m][1..] == lines[1..][..m - 1];
    assert Entries(p, lines[..m]) == [e] + Entries(p, lines[1..][..m - 1]);
    assert es[|done|] == e && LinkOk(p, es, |done|);
    assert HashBefore(p, es, |done|) == HashBefore(p, done, |done|);
  }

  lemma FirstBlank(p: Primitives, done: seq<Fields>, lines: seq<string>, m: nat)
    requires 0 < m && GoodUntil(p, done, lines, m) && IsBlank(lines[0])
    ensures GoodUntil(p, done, lines[1..], m - 1) && Entries(p, lines[..m]) == Entries(p, lines[1..][..m - 1])
  {
    assert lines[..m][0] == lines[0] && lines[..m][1..] == lines[1..][..m - 1];
    AllObjectsSplit(p, lines[..m]);
  }

  lemma WalkOver(p: Primitives, done: seq<Fields>, lines: seq<string>, e: Fields, note: Option<int>)
    requires lines != [] && !IsBlank(lines[0]) && IsObject(p, lines[0]) && e == p.dec(Text.Strip(lines[0])).value.fields
    requires LookAtEntry(p, e, HashBefore(p, done, |done|), |done|) == Good(e, HashOf(p, e))
    ensures Walk(p, lines, PosOf(p, done, note), note) == Walk(p, lines[1..], PosOf(p, done + [e], note), note)
  {
    PosSnoc(p, done, e, note);
  }

  /** The walk passes over lines that are accepted. */
  lemma {:induction false} WalkPasses(p: Primitives, done: seq<Fields>, lines: seq<string>, m: nat, note: Option<int>)
    requires GoodUntil(p, done, lines, m)
    ensures Walk(p, lines, PosOf(p, done, note), note) == Walk(p, lines[m..], PosOf(p, done + Entries(p, lines[..m]), note), note)
    decreases m
  {
    if m == 0 {
      assert lines[0..] == lines && lines[..0] == [] && done + [] == done;
    } else {
      var rest := lines[1..];
      assert rest[m - 1..] == lines[m..];
      if IsBlank(lines[0]) {
        FirstBlank(p, done, lines, m);
        WalkPasses(p, done, rest, m - 1, note);
      } else {
        assert lines[..m][0] == lines[0];
        var e := p.dec(Text.Strip(lines[0])).value.fields;
        FirstLinks(p, done, lines, m, e);
        WalkOver(p, done, lines, e, note);
        WalkPasses(p, done + [e], rest, m - 1, note);
      }
    }
  }

  /** What the walk says of the first line that is not accepted. */
  function Verdict(look: Look, rest: seq<string>, pos: Pos): Links {
    match look
    case Undecodable => Broken(if forall i | 0 <= i < |rest| :: IsBlank(rest[i]) then TailMalformation else MalformedJson, pos)
    case Wrong(fault) => Broken(fault, pos)
    case _ => Raises
  }

  /** A file is judged by its first line that is neither blank nor a linking entry: with the fault of that line, at the
      position reached before it. A line that is no JSON is a torn tail exactly when only blank lines follow. */
  lemma JudgedByFirstFault(p: Primitives, text: string, m: nat, note: Option<int>)
    requires m < |Lines(text)| && GoodUntil(p, [], Lines(text), m)
    requires var es := Entries(p, Lines(text)[..m]);
             var look := LookAt(p, Lines(text)[m], HashBefore(p, es, |es|), |es|); !look.Blank? && !look.Good?
    ensures var es := Entries(p, Lines(text)[..m]);
            VerifyLinks(p, Some(text), note) ==
            Verdict(LookAt(p, Lines(text)[m], HashBefore(p, es, |es|), |es|), Lines(text)[m + 1..], PosOf(p, es, note))
  {
    var lines := Lines(text);
    WalkPasses(p, [], lines, m, note);
    assert [] + Entries(p, lines[..m]) == Entries(p, lines[..m]);
    assert lines[m..][0] == lines[m] && lines[m..][1..] == lines[m + 1..];
  }

  /** Both checks report a broken file with its fault and the position reached; one that cannot be judged, as such. */
  lemma BrokenReported(p: Primitives, text: string, head: Option<string>, count: Option<int>, anchor: string, n: int)
    requires !VerifyLinks(p, Some(text), None).Intact? && n >= 1
    ensures var l := VerifyLinks(p, Some(text), None);
            && VerifyIntegrity(p, Some(text), head, count) ==
               (if l.Raises? then Report(false, Exception, None, 0) else Report(false, Link(l.fault), l.pos.last, l.pos.count))
            && !VerifyPrefix(p, Some(text), Some(anchor), Some(n)).ok && !VerifyPrefix(p, Some(text), None, Some(0)).ok
  {
    AcceptedExactlyWhenLinked(p, text, None);
    AcceptedExactlyWhenLinked(p, text, Some(n));
  }

  // ---------------------------------------------------------------- an intact file and an anchor

  /** The exact check on a file whose entries link: accepted exactly when count and head, as far as they are given, are
      those of the file; otherwise the count is told before the head. */
  lemma ExactAnswersTold(p: Primitives, text: string, head: Option<string>, count: Option<int>)
    requires AllObjects(p, Lines(text)) && Linked(p, Entries(p, Lines(text)))
    ensures var r, es := VerifyIntegrity(p, Some(text), head, count), Entries(p, Lines(text));
            && (r.ok <==> (count.None? || count.value == |es|) && (head.None? || head == HashBefore(p, es, |es|)))
            && (count.Some? && |es| < count.value ==> r.why == Truncated)
            && (count.Some? && |es| > count.value ==> r.why == Longer)
            && (!r.ok && (count.None? || count.value == |es|) ==> r.why == HeadMismatch)
            && r.last == HashBefore(p, es, |es|) && r.count == |es|
  {
    AcceptedExactlyWhenLinked(p, text, None);
  }

  /** The prefix check on such a file: accepted exactly for nothing at all, or for the hash of an entry it has, by its
      position; anything else is told apart. */
  lemma PrefixAnswersTold(p: Primitives, text: string, head: Option<string>, count: Option<int>)
    requires AllObjects(p, Lines(text)) && Linked(p, Entries(p, Lines(text)))
    ensures var r, es := VerifyPrefix(p, Some(text), head, count), Entries(p, Lines(text));
            && (r.ok <==> (head.None? && count == Some(0))
                          || (head.Some? && count.Some? && 1 <= count.value <= |es| && HashOf(p, es[count.value - 1]) == head.value))
            && (count.Some? && count.value < 0 ==> r.why == InvalidAnchor)
            && (head.Some? && count == Some(0) ==> r.why == InvalidAnchor)
            && (head.Some? && count.None? ==> r.why == HalfAnchor)
            && (head.None? && (count.None? || count.value > 0) ==> r.why == HalfAnchor)
            && (head.Some? && count.Some? && count.value > |es| ==> r.why == Truncated)
            && (head.Some? && count.Some? && 1 <= count.value <= |es| && !r.ok ==> r.why == PrefixMismatch)
  {
    AcceptedExactlyWhenLinked(p, text, None);
    AcceptedExactlyWhenLinked(p, text, count);
  }

  /** An anchored start accepts a recovered file with such an anchor, and refuses every other with that reason. */
  lemma StartAcceptsExactlyWhen(p: Primitives, text: string, head: Option<string>, count: Option<int>)
    requires AllObjects(p, Lines(text)) && Linked(p, Entries(p, Lines(text)))
    ensures var es := Entries(p, Lines(text));
            AnchorRefusal(p, Some(text), Some((head, count))).None? <==>
            (head.None? && count == Some(0))
            || (head.Some? && count.Some? && 1 <= count.value <= |es| && HashOf(p, es[count.value - 1]) == head.value)
  {
    PrefixAnswersTold(p, text, head, count);
  }
}
