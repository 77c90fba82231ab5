/** What an append writes: the record itself, redacted, and the five fields that chain it. */
module AuditContents {
  import opened Domain
  import opened JsonValues
  import opened Redaction
  import opened AuditChain
  import opened AuditTheorems
  import opened AuditRecovery
  import Text

  /** The fields the log adds to every record, replacing any of the caller's. */
  const OWN_FIELDS := {"previous_hash", "seq", "entry_hash", "mac"}

  /** Under an ordinary name the entry holds what is written for the record, and nothing else. */
  predicate HoldsRecord(e: Fields, written: Fields) {
    e - OWN_FIELDS == written - OWN_FIELDS
  }

  /** The fields of the log itself: where the entry stands, what it hashes to, and the MAC over both. */
  predicate Chained(p: Primitives, e: Fields, last: Option<string>, count: nat) {
    && OWN_FIELDS <= e.Keys
    && e["previous_hash"] == (if last.None? then JNull else JStr(last.value)) && e["seq"] == JInt(count)
    && e["entry_hash"] == JStr(p.sha(e - {"entry_hash", "mac"}))
    && e["mac"] == JStr(p.hmac(e - {"mac"}))
  }

  /** The file is what it was, plus one line that reads back as this entry. */
  predicate OneLineMore(p: Primitives, before: Option<string>, after: Option<string>, e: Fields) {
    && after.Some?
    && var text := if before.None? then "" else before.value;
       && |after.value| > |text| && after.value[..|text|] == text
       && var line := after.value[|text|..];
          && line[|line| - 1] == '\n' && '\n' !in line[..|line| - 1]
          && p.dec(Text.Strip(line)) == Some(JObj(e))
  }

  lemma StoredHolds(p: Primitives, record: Fields, last: Option<string>, count: nat)
    ensures var e := Stored(p, NextBody(record, last, count)); HoldsRecord(e, record) && Chained(p, e, last, count)
  {
    var body := NextBody(record, last, count);
    var e := Stored(p, body);
    assert e - {"entry_hash", "mac"} == body;
    assert e - {"mac"} == WithHash(body, p.sha(body));
    assert e - OWN_FIELDS == record - OWN_FIELDS;
  }

  lemma LineAdded(p: Primitives, before: Option<string>, body: Fields)
    requires p.Framed() && Appendable(body)
    ensures OneLineMore(p, before, Some(TextOf(before) + LineOf(p, body)), Stored(p, body))
  {
    LineReadsBack(p, "", body);
    assert p.FramedAt(Stored(p, body));
    var text, line := TextOf(before), LineOf(p, body);
    assert (text + line)[..|text|] == text && (text + line)[|text|..] == line;
    assert line[..|line| - 1] == p.enc(Stored(p, body)) && "" + p.enc(Stored(p, body)) + "\n" == line;
  }

  /** A successful append adds one line, which decodes to an object that holds exactly what redaction makes of the
      record -- see WrittenAs: everything outside sensitive fields as it is, strings scrubbed -- besides the position in the
      chain, the hash of the content and the MAC over both. That hash is what append returns and what the next entry
      names. */
  lemma AppendWritesTheRecord(p: Primitives, s: LogState, record: seq<Item>, hash: string)
    requires p.Framed() && Append(p, s, record, Writes).1 == Appended(hash)
    ensures var after := Append(p, s, record, Writes).0;
            exists e: Fields, written: Fields ::
              && OneLineMore(p, s.file, after.file, e) && WrittenAs(p.scrub, PDict(record), JObj(written))
              && HoldsRecord(e, written) && Chained(p, e, s.last, s.count)
              && e["entry_hash"] == JStr(hash) && after.last == Some(hash) && after.count == s.count + 1
  {
    var written := RecordFields(p, record);
    var body := NextBody(written, s.last, s.count);
    RedactsExactly(p.scrub, PDict(record), JObj(written));
    NextBodyAppendable(p, written, s.last, s.count);
    StoredHolds(p, written, s.last, s.count);
    LineAdded(p, s.file, body);
    assert Stored(p, body) - {"entry_hash", "mac"} == body;
  }

  /** An append is refused before anything is written exactly when the redacted record holds, outside the fields of the
      log, a value that canonical JSON refuses; then the log is as it was. Otherwise it succeeds when the writer does. */
  lemma AppendedExactlyWhen(p: Primitives, s: LogState, record: seq<Item>, writer: Writer)
    ensures var (after, r) := Append(p, s, record, writer); var written := RecordFields(p, record);
            && (r.NotEncodable? <==> !JObj(written - OWN_FIELDS).Finite())
            && (r.NotEncodable? ==> after == s)
            && (r.Appended? <==> JObj(written - OWN_FIELDS).Finite() && writer.Writes?)
            && (r.WriteFailed? ==> after.last == s.last && after.count == s.count)
  {
    var written := RecordFields(p, record);
    var body := NextBody(written, s.last, s.count);
    if JObj(written - OWN_FIELDS).Finite() {
      forall k | k in body ensures body[k].Finite() {
        if k !in OWN_FIELDS { assert (written - OWN_FIELDS)[k] == body[k]; }
      }
    }
    if JObj(body).Finite() {
      forall k | k in written - OWN_FIELDS ensures (written - OWN_FIELDS)[k].Finite() {
        assert body[k] == written[k];
      }
    }
  }
}
