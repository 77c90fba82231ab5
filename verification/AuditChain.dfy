/** The hash-chained audit log of axiomgate_kernel/audit.py: append, link verification, tail healing, anchors. */
module AuditChain {
  import opened Domain
  import opened JsonValues
  import opened Digests
  import opened Redaction
  import Text

  /** The primitives the log is built on, for one MAC key: sha is sha256_hex over canonical bytes, hmac the keyed
      MAC over canonical bytes, enc is canonical_json, dec is json.loads, str and scrub are str and redact_secrets. */
  datatype Primitives = Primitives(
    sha: Fields -> string,
    hmac: Fields -> string,
    enc: Fields -> string,
    dec: string -> Option<Json>,
    str: Json -> string,
    scrub: string -> string)
  {
    /** SHA-256 over canonical bytes never collides. */
    ghost predicate CollisionFree() {
      forall a, b :: JObj(a).Finite() && JObj(b).Finite() && sha(a) == sha(b) ==> a == b
    }

    /** What canonical_json and json.loads promise about one object: it is written as one line (control characters
        are escaped, section 7 of RFC 8259) and reads back; no proper part of it is JSON; and no JSON text that
        already decodes can be followed by it. */
    ghost predicate FramedAt(f: Fields) {
      && '\n' !in enc(f) && enc(f) != "" && Text.Strip(enc(f)) == enc(f)
      && (JObj(f).Finite() ==> dec(enc(f)) == Some(JObj(f)))
      && (forall k | 0 < k < |enc(f)| :: Torn(enc(f)[..k]))
      && (forall t | Text.Strip(t) != "" && dec(Text.Strip(t)).Some? :: Torn(t + enc(f)))
    }

    /** A line that is neither blank nor JSON. */
    predicate Torn(line: string) {
      Text.Strip(line) != "" && dec(Text.Strip(line)).None?
    }

    ghost predicate Framed() {
      (forall f :: FramedAt(f)) && (forall s :: str(JStr(s)) == s)
    }
  }

  const HASH_MAC_FIELDS := {"entry_hash", "mac"}

  // ---------------------------------------------------------------- lines of a file

  /** Iterating a text file: each line keeps its newline; the last one may lack it. */
  function Lines(text: string): (r: seq<string>)
    ensures text != "" ==> r != []
    decreases |text|
  {
    if text == "" then []
    else
      var n := LineLength(text);
      [text[..n]] + Lines(text[n..])
  }

  function LineLength(text: string): (n: nat)
    requires text != ""
    ensures 0 < n <= |text|
    ensures '\n' !in text[..n - 1]
    ensures text[n - 1] == '\n' || n == |text|
  {
    if text[0] == '\n' || |text| == 1 then 1 else 1 + LineLength(text[1..])
  }

  function Concat(lines: seq<string>): string {
    if lines == [] then "" else lines[0] + Concat(lines[1..])
  }

  predicate IsBlank(line: string) {
    Text.Strip(line) == ""
  }

  // ---------------------------------------------------------------- verifying links

  datatype Fault = TailMalformation | MalformedJson | PreviousHashMismatch | LegacyFormat | SeqMismatch | EntryHashMismatch | MacMismatch

  /** Running variables of the walk: last hash, count, and the hash noted at the requested position. */
  datatype Pos = Pos(last: Option<string>, count: nat, noted: Option<string>)

  const START := Pos(None, 0, None)

  /** Raises: the walk meets a line it cannot judge at all -- JSON that is not an object, a
      non-finite number, or a stored MAC that cannot be compared. */
  datatype Links = Intact(pos: Pos) | Broken(fault: Fault, pos: Pos) | Raises

  function BodyOf(entry: Fields): Fields {
    entry - HASH_MAC_FIELDS
  }

  function WithHash(body: Fields, hash: string): Fields {
    body["entry_hash" := JStr(hash)]
  }

  /** The stored MAC as verification reads it: str(entry.get("mac", "")). */
  function MacText(p: Primitives, entry: Fields): string {
    if "mac" in entry then p.str(entry["mac"]) else ""
  }

  function Noted(pos: Pos, hash: string, note: Option<int>): Pos {
    Pos(Some(hash), pos.count + 1, if note == Some(pos.count + 1) then Some(hash) else pos.noted)
  }

  datatype Look = Blank | Undecodable | Wrong(fault: Fault) | Unjudgeable | Good(entry: Fields, hash: string)

  /** One line against the running position. */
  function LookAt(p: Primitives, line: string, last: Option<string>, count: nat): Look {
    var text := Text.Strip(line);
    if text == "" then Blank
    else if p.dec(text).None? then Undecodable
    else if !p.dec(text).value.JObj? then Unjudgeable
    else LookAtEntry(p, p.dec(text).value.fields, last, count)
  }

  function LookAtEntry(p: Primitives, entry: Fields, last: Option<string>, count: nat): Look {
    if Get(entry, "previous_hash") != OptStr(last) then Wrong(PreviousHashMismatch)
    else if "seq" !in entry then Wrong(LegacyFormat)
    else if !entry["seq"].EqualsInt(count) then Wrong(SeqMismatch)
    else
      var body := BodyOf(entry);
      if !JObj(body).Finite() then Unjudgeable
      else
        var hash := p.sha(body);
        if Get(entry, "entry_hash") != JStr(hash) then Wrong(EntryHashMismatch)
        else
          match HmacEqual(p.hmac(WithHash(body, hash)), MacText(p, entry))
          case Same => Good(entry, hash)
          case Differ => Wrong(MacMismatch)
          case Raised => Unjudgeable
  }

  predicate AllBlank(lines: seq<string>) {
    forall i | 0 <= i < |lines| :: IsBlank(lines[i])
  }

  function Walk(p: Primitives, lines: seq<string>, pos: Pos, note: Option<int>): Links {
    if lines == [] then Intact(pos)
    else
      match LookAt(p, lines[0], pos.last, pos.count)
      case Blank => Walk(p, lines[1..], pos, note)
      case Undecodable => Broken(if AllBlank(lines[1..]) then TailMalformation else MalformedJson, pos)
      case Wrong(fault) => Broken(fault, pos)
      case Unjudgeable => Raises
      case Good(_, hash) => Walk(p, lines[1..], Noted(pos, hash, note), note)
  }

  /** _verify_links on a file that may be missing. */
  function VerifyLinks(p: Primitives, file: Option<string>, note: Option<int>): Links {
    if file.None? then Intact(START) else Walk(p, Lines(file.value), START, note)
  }

  // ---------------------------------------------------------------- the two questions an anchor can ask

  datatype Why =
    | Empty | Exact | PrefixOk | ProvesNothing                                        // accepting
    | Link(fault: Fault) | Truncated | Longer | HeadMismatch | PrefixMismatch | InvalidAnchor | HalfAnchor
    | Exception

  datatype Report = Report(ok: bool, why: Why, last: Option<string>, count: nat)

  function LinkReport(l: Links): Report
    requires !l.Intact?
  {
    if l.Raises? then Report(false, Exception, None, 0) else Report(false, Link(l.fault), l.pos.last, l.pos.count)
  }

  function VerifyIntegrity(p: Primitives, file: Option<string>, head: Option<string>, count: Option<int>): Report {
    if file.None? then Report(true, Empty, None, 0)
    else
      var l := VerifyLinks(p, file, None);
      if !l.Intact? then LinkReport(l)
      else if count.Some? && l.pos.count < count.value then Report(false, Truncated, l.pos.last, l.pos.count)
      else if count.Some? && l.pos.count > count.value then Report(false, Longer, l.pos.last, l.pos.count)
      else if head.Some? && l.pos.last != head then Report(false, HeadMismatch, l.pos.last, l.pos.count)
      else Report(true, Exact, l.pos.last, l.pos.count)
  }

  function VerifyPrefix(p: Primitives, file: Option<string>, head: Option<string>, count: Option<int>): Report {
    if count.Some? && count.value < 0 then Report(false, InvalidAnchor, None, 0)
    else if head.Some? && count == Some(0) then Report(false, InvalidAnchor, None, 0)
    else if head.None? && count == Some(0) then
      var l := VerifyLinks(p, file, None);
      if !l.Intact? then LinkReport(l) else Report(true, ProvesNothing, l.pos.last, l.pos.count)
    else if head.None? || count.None? then Report(false, HalfAnchor, None, 0)
    else
      var l := VerifyLinks(p, file, count);
      if !l.Intact? then LinkReport(l)
      else if l.pos.count < count.value then Report(false, Truncated, l.pos.last, l.pos.count)
      else if l.pos.noted != head then Report(false, PrefixMismatch, l.pos.last, l.pos.count)
      else Report(true, PrefixOk, l.pos.last, l.pos.count)
  }

  // ---------------------------------------------------------------- writing

  /** The hashed content of the next entry. */
  function NextBody(record: Fields, last: Option<string>, count: nat): Fields {
    (record - HASH_MAC_FIELDS)["previous_hash" := OptStr(last)]["seq" := JInt(count)]
  }

  function Stored(p: Primitives, body: Fields): Fields {
    WithHash(body, p.sha(body))["mac" := JStr(p.hmac(WithHash(body, p.sha(body))))]
  }

  function LineOf(p: Primitives, body: Fields): string {
    p.enc(Stored(p, body)) + "\n"
  }

  function TextOf(file: Option<string>): string {
    if file.None? then "" else file.value
  }

  /** What the log knows and what is on disk. */
  datatype LogState = LogState(file: Option<string>, last: Option<string>, count: nat)

  /** The writer behind append writes the whole line, or raises when so many of its characters had reached the disk:
      none when the file could not be opened, some or all when flushing or syncing failed. */
  datatype Writer = Writes | Fails(reached: nat)

  function Cut(text: string, k: nat): string {
    if k < |text| then text[..k] else text
  }

  /** The file when k characters of the line have reached it. */
  function Grown(file: Option<string>, line: string, k: nat): Option<string> {
    if k == 0 then file else Some(TextOf(file) + Cut(line, k))
  }

  datatype AppendResult = Appended(hash: string) | WriteFailed | NotEncodable

  function RecordFields(p: Primitives, entries: seq<Item>): Fields {
    RedactEntries(p.scrub, entries)
  }

  function Append(p: Primitives, s: LogState, record: seq<Item>, writer: Writer): (LogState, AppendResult) {
    var body := NextBody(RecordFields(p, record), s.last, s.count);
    if !JObj(body).Finite() then (s, NotEncodable)
    else if writer.Fails? then (s.(file := Grown(s.file, LineOf(p, body), writer.reached)), WriteFailed)
    else (LogState(Some(TextOf(s.file) + LineOf(p, body)), Some(p.sha(body)), s.count + 1), Appended(p.sha(body)))
  }

  /** Opening an existing or missing file: the recovered state, or the reason the log refuses to open. */
  datatype OpenResult = Opened(state: LogState) | Refused(why: Why)

  /** Healing keeps the first count physical lines. */
  function Healed(file: string, count: nat): string
    requires count <= |Lines(file)|
  {
    Concat(Lines(file)[..count])
  }

  lemma {:induction false} WalkCountBound(p: Primitives, lines: seq<string>, pos: Pos, note: Option<int>)
    ensures var l := Walk(p, lines, pos, note);
            && (l.Intact? ==> pos.count <= l.pos.count <= pos.count + |lines|)
            && (l.Broken? ==> pos.count <= l.pos.count < pos.count + |lines|)
  {
    if lines != [] {
      match LookAt(p, lines[0], pos.last, pos.count)
      case Blank => WalkCountBound(p, lines[1..], pos, note);
      case Good(_, hash) => WalkCountBound(p, lines[1..], Noted(pos, hash, note), note);
      case _ =>
    }
  }

  function Open(p: Primitives, file: Option<string>): OpenResult {
    if file.None? then Opened(LogState(None, None, 0))
    else
      match VerifyLinks(p, file, None)
      case Intact(pos) => Opened(LogState(file, pos.last, pos.count))
      case Raises => Refused(Exception)
      case Broken(fault, pos) =>
        if fault != TailMalformation then Refused(Link(fault))
        else
          WalkCountBound(p, Lines(file.value), START, None);
          Opened(LogState(Some(Healed(file.value, pos.count)), pos.last, pos.count))
  }

  /** Why an anchored start is refused on the recovered file. */
  function AnchorRefusal(p: Primitives, file: Option<string>, anchor: Option<(Option<string>, Option<int>)>): Option<Why> {
    if anchor.None? then None
    else
      var r := VerifyPrefix(p, file, anchor.value.0, anchor.value.1);
      if r.ok then None else Some(r.why)
  }

  class AuditLog {
    const primitives: Primitives
    var file: Option<string>        // the text behind path, None while it does not exist
    var lastHash: Option<string>
    var count: nat

    ghost function State(): LogState
      reads this
    {
      LogState(file, lastHash, count)
    }

    /** The object as __init__ holds it before it looks at the file. */
    constructor (primitives: Primitives, file: Option<string>)
      ensures this.primitives == primitives && State() == LogState(file, None, 0)
    {
      this.primitives := primitives;
      this.file := file;
      lastHash, count := None, 0;
    }

    /** The rest of __init__: replay, heal, and check the anchor -- after healing, never before. */
    method Start(anchor: Option<(Option<string>, Option<int>)>) returns (refused: Option<Why>)
      requires lastHash == None && count == 0
      modifies this
      ensures var began := Open(primitives, old(file));
              if began.Refused? then refused == Some(began.why) && State() == old(State())
              else State() == began.state && refused == AnchorRefusal(primitives, began.state.file, anchor)
    {
      refused := Replay();
      if refused.Some? || anchor.None? { return; }
      var r := VerifyPrefixOf(anchor.value.0, anchor.value.1);
      if !r.ok { return Some(r.why); }
    }

    method Replay() returns (refused: Option<Why>)
      requires lastHash == None && count == 0
      modifies this
      ensures var began := Open(primitives, old(file));
              if began.Refused? then refused == Some(began.why) && State() == old(State())
              else State() == began.state && refused.None?
    {
      if file.None? { return None; }
      var l := VerifyLinksLoop(None);
      if l.Raises? { return Some(Exception); }
      if l.Broken? {
        if l.fault != TailMalformation { return Some(Link(l.fault)); }
        WalkCountBound(primitives, Lines(file.value), START, None);
        var lines, kept := Lines(file.value), "";
        for i := 0 to l.pos.count
          invariant kept == Concat(lines[..i])
        {
          ConcatSnoc(lines, i);
          kept := kept + lines[i];
        }
        file := Some(kept);
      }
      lastHash, count := l.pos.last, l.pos.count;
      return None;
    }

    /** _verify_links: one pass with running variables. */
    method VerifyLinksLoop(note: Option<int>) returns (l: Links)
      ensures l == VerifyLinks(primitives, file, note)
    {
      if file.None? { return Intact(START); }
      var lines := Lines(file.value);
      var pos := START;
      var i := 0;
      while i < |lines|
        invariant 0 <= i <= |lines|
        invariant Walk(primitives, lines, START, note) == Walk(primitives, lines[i..], pos, note)
      {
        assert lines[i..][0] == lines[i] && lines[i..][1..] == lines[i + 1..];
        match LookAt(primitives, lines[i], pos.last, pos.count) {
          case Blank =>
          case Undecodable =>
            return Broken(if AllBlank(lines[i + 1..]) then TailMalformation else MalformedJson, pos);
          case Wrong(fault) => return Broken(fault, pos);
          case Unjudgeable => return Raises;
          case Good(_, hash) => pos := Noted(pos, hash, note);
        }
        i := i + 1;
      }
      return Intact(pos);
    }

    method AppendRecord(record: seq<Item>, writer: Writer) returns (r: AppendResult)
      modifies this
      ensures (State(), r) == Append(primitives, old(State()), record, writer)
    {
      var redacted := RedactValue(primitives.scrub, PDict(record));
      var body := redacted.fields - HASH_MAC_FIELDS;
      body := body["previous_hash" := OptStr(lastHash)];
      body := body["seq" := JInt(count)];
      if !JObj(body).Finite() { return NotEncodable; }
      var hash := primitives.sha(body);
      var mac := primitives.hmac(body["entry_hash" := JStr(hash)]);
      var stored := body["entry_hash" := JStr(hash)]["mac" := JStr(mac)];
      var line := primitives.enc(stored) + "\n";
      if writer.Fails? {
        file := Grown(file, line, writer.reached);
        return WriteFailed;
      }
      file := Some(TextOf(file) + line);
      lastHash := Some(hash);
      count := count + 1;
      return Appended(hash);
    }

    method Head() returns (head: Option<string>, n: nat)
      ensures head == lastHash && n == count
    {
      return lastHash, count;
    }

    method VerifyIntegrityOf(head: Option<string>, expected: Option<int>) returns (r: Report)
      ensures r == VerifyIntegrity(primitives, file, head, expected)
    {
      if file.None? { return Report(true, Empty, None, 0); }
      var l := VerifyLinksLoop(None);
      if !l.Intact? { return LinkReport(l); }
      if expected.Some? && l.pos.count < expected.value { return Report(false, Truncated, l.pos.last, l.pos.count); }
      if expected.Some? && l.pos.count > expected.value { return Report(false, Longer, l.pos.last, l.pos.count); }
      if head.Some? && l.pos.last != head { return Report(false, HeadMismatch, l.pos.last, l.pos.count); }
      return Report(true, Exact, l.pos.last, l.pos.count);
    }

    method VerifyPrefixOf(head: Option<string>, expected: Option<int>) returns (r: Report)
      ensures r == VerifyPrefix(primitives, file, head, expected)
    {
      if expected.Some? && expected.value < 0 { return Report(false, InvalidAnchor, None, 0); }
      if head.Some? && expected == Some(0) { return Report(false, InvalidAnchor, None, 0); }
      if head.None? || expected.None? {
        if head.None? && expected == Some(0) {
          var l := VerifyLinksLoop(None);
          if !l.Intact? { return LinkReport(l); }
          return Report(true, ProvesNothing, l.pos.last, l.pos.count);
        }
        return Report(false, HalfAnchor, None, 0);
      }
      var l := VerifyLinksLoop(expected);
      if !l.Intact? { return LinkReport(l); }
      if l.pos.count < expected.value { return Report(false, Truncated, l.pos.last, l.pos.count); }
      if l.pos.noted != head { return Report(false, PrefixMismatch, l.pos.last, l.pos.count); }
      return Report(true, PrefixOk, l.pos.last, l.pos.count);
    }
  }

  lemma {:induction false} ConcatSnoc(lines: seq<string>, n: nat)
    requires n < |lines|
    ensures Concat(lines[..n + 1]) == Concat(lines[..n]) + lines[n]
  {
    if n == 0 {
      assert lines[..1] == [lines[0]];
      assert lines[..1][1..] == [];
    } else {
      ConcatSnoc(lines[1..], n - 1);
      assert lines[..n + 1][1..] == lines[1..][..n];
      assert lines[..n][1..] == lines[1..][..n - 1];
    }
  }
}
