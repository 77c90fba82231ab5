/** Lines and blanks: the facts about text files the recovery theorems rest on. */
module TextLines {
  import opened Text
  import opened AuditChain

  /** One whole line: its newline is its last character and nowhere else. */
  predicate WholeLine(line: string) {
    line != "" && line[|line| - 1] == '\n' && '\n' !in line[..|line| - 1]
  }

  predicate Complete(text: string) {
    text == "" || text[|text| - 1] == '\n'
  }

  lemma {:induction false} LineLengthOfWhole(line: string, rest: string)
    requires WholeLine(line)
    ensures LineLength(line + rest) == |line|
  {
    if |line| > 1 {
      assert line[0] == line[..|line| - 1][0];
      var shorter := line[1..];
      assert shorter[..|shorter| - 1] == line[..|line| - 1][1..];
      assert (line + rest)[1..] == shorter + rest;
      LineLengthOfWhole(shorter, rest);
    }
  }

  lemma LinesCons(line: string, rest: string)
    requires WholeLine(line)
    ensures Lines(line + rest) == [line] + Lines(rest)
  {
    LineLengthOfWhole(line, rest);
    assert (line + rest)[..|line|] == line && (line + rest)[|line|..] == rest;
  }

  /** The first line of a complete text is whole, and what follows is complete. */
  lemma FirstLine(text: string) returns (line: string, rest: string)
    requires text != "" && Complete(text)
    ensures text == line + rest && WholeLine(line) && Complete(rest) && |rest| < |text|
  {
    var n := LineLength(text);
    line, rest := text[..n], text[n..];
    assert line[..n - 1] == text[..n - 1];
    if rest != "" {
      assert rest[|rest| - 1] == text[|text| - 1];
    }
  }

  /** Text that ends with a newline, or is empty, keeps its lines when more follows. */
  lemma {:induction false} LinesJoin(a: string, b: string)
    requires Complete(a)
    ensures Lines(a + b) == Lines(a) + Lines(b)
    decreases |a|
  {
    if a == "" {
      assert a + b == b;
    } else {
      var line, rest := FirstLine(a);
      LinesJoin(rest, b);
      ConcatAssociates(line, rest, b);
      LinesJoinStep(line, rest, b, rest + b);
    }
  }

  lemma ConcatAssociates<T>(a: seq<T>, b: seq<T>, c: seq<T>)
    ensures (a + b) + c == a + (b + c)
  {
  }

  lemma LinesJoinStep(line: string, rest: string, b: string, joined: string)
    requires WholeLine(line) && Lines(joined) == Lines(rest) + Lines(b)
    ensures Lines(line + joined) == Lines(line + rest) + Lines(b)
  {
    LinesCons(line, rest);
    LinesCons(line, joined);
    ConcatAssociates([line], Lines(rest), Lines(b));
  }

  lemma {:induction false} LineLengthWithoutNewline(s: string)
    requires s != "" && '\n' !in s
    ensures LineLength(s) == |s|
  {
    if |s| > 1 {
      LineLengthWithoutNewline(s[1..]);
    }
  }

  lemma NoNewlineAnywhere(s: string)
    requires s != "" && '\n' !in s[..|s| - 1] && s[|s| - 1] != '\n'
    ensures '\n' !in s
  {
    forall i | 0 <= i < |s| ensures s[i] != '\n' {
      if i < |s| - 1 { assert s[i] == s[..|s| - 1][i]; }
    }
  }

  /** A non-empty text whose only newline, if any, is its last character is one line. */
  lemma OneLine(s: string)
    requires s != "" && '\n' !in s[..|s| - 1]
    ensures Lines(s) == [s]
  {
    if s[|s| - 1] == '\n' {
      assert s + "" == s;
      LinesCons(s, "");
    } else {
      NoNewlineAnywhere(s);
      LineLengthWithoutNewline(s);
      assert s[..|s|] == s && s[|s|..] == "";
    }
  }

  /** What follows the last newline. */
  function TailOf(text: string): (t: string)
    ensures |t| <= |text| && text[|text| - |t|..] == t && '\n' !in t && Complete(text[..|text| - |t|])
  {
    if Complete(text) then "" else TailOf(text[..|text| - 1]) + [text[|text| - 1]]
  }

  function HeadOf(text: string): (h: string)
    ensures Complete(h) && h + TailOf(text) == text
  {
    text[..|text| - |TailOf(text)|]
  }

  lemma LinesOfParts(text: string)
    ensures Lines(text) == Lines(HeadOf(text)) + (if TailOf(text) == "" then [] else [TailOf(text)])
  {
    LinesJoin(HeadOf(text), TailOf(text));
    if TailOf(text) != "" {
      OneLine(TailOf(text));
    }
  }

  /** Appending one line to any text extends its tail, and nothing else. */
  lemma LinesAfterAppend(text: string, enc: string)
    requires '\n' !in enc
    ensures Lines(text + (enc + "\n")) == Lines(HeadOf(text)) + [TailOf(text) + enc + "\n"]
  {
    var head, tail := HeadOf(text), TailOf(text);
    var last := tail + enc + "\n";
    JoinAssociates(head, tail, enc, text);
    LinesJoin(head, last);
    assert last[..|last| - 1] == tail + enc;
    OneLine(last);
  }

  lemma JoinAssociates(head: string, tail: string, enc: string, text: string)
    requires head + tail == text
    ensures text + (enc + "\n") == head + (tail + enc + "\n")
  {
  }

  /** Reading back the first lines of a text: all but possibly the last keep their newline. */
  lemma {:induction false} FirstLinesReadBack(text: string, n: nat)
    requires n < |Lines(text)|
    ensures Lines(Concat(Lines(text)[..n])) == Lines(text)[..n]
    ensures forall i | 0 <= i < n :: WholeLine(Lines(text)[i])
    decreases |text|
  {
    if n > 0 {
      var line, rest := FirstOfSeveral(text);
      var lines := Lines(text);
      FirstLinesReadBack(rest, n - 1);
      assert lines[..n][1..] == Lines(rest)[..n - 1];
      LinesCons(line, Concat(Lines(rest)[..n - 1]));
      forall i | 0 <= i < n ensures WholeLine(lines[i]) {
        if i > 0 { assert lines[i] == Lines(rest)[i - 1]; }
      }
    } else {
      assert Lines(text)[..0] == [];
    }
  }

  lemma FirstOfSeveral(text: string) returns (line: string, rest: string)
    requires |Lines(text)| > 1
    ensures text == line + rest && WholeLine(line) && |rest| < |text| && Lines(text) == [line] + Lines(rest)
  {
    var n := LineLength(text);
    line, rest := text[..n], text[n..];
    assert Lines(text) == [line] + Lines(rest);
    assert rest != "";
    assert line[..n - 1] == text[..n - 1];
  }

  // ---------------------------------------------------------------- blanks

  lemma {:induction false} StripLeftSkips(a: string, b: string)
    requires forall i | 0 <= i < |a| :: IsSpace(a[i])
    ensures StripLeft(a + b) == StripLeft(b)
  {
    if a == "" {
      assert a + b == b;
    } else {
      assert (a + b)[1..] == a[1..] + b;
      StripLeftSkips(a[1..], b);
    }
  }

  lemma {:induction false} StripLeftNewline(s: string)
    ensures StripLeft(s + "\n") == if StripLeft(s) == "" then "" else StripLeft(s) + "\n"
  {
    if s == "" {
      assert "" + "\n" == "\n";
    } else if IsSpace(s[0]) {
      assert (s + "\n")[1..] == s[1..] + "\n";
      StripLeftNewline(s[1..]);
    }
  }

  /** A trailing newline never matters to strip. */
  lemma StripNewline(s: string)
    ensures Strip(s + "\n") == Strip(s)
  {
    StripLeftNewline(s);
    var t := StripLeft(s);
    if t != "" {
      assert (t + "\n")[..|t|] == t;
    }
  }

  lemma {:induction false} StripRightKeepsFirst(s: string)
    requires s != "" && !IsSpace(s[0])
    ensures StripRight(s) != ""
  {
    if |s| > 1 && IsSpace(s[|s| - 1]) {
      StripRightKeepsFirst(s[..|s| - 1]);
    }
  }

  lemma {:induction false} BlankIsSpaces(s: string)
    requires Strip(s) == ""
    ensures forall i | 0 <= i < |s| :: IsSpace(s[i])
  {
    if s != "" {
      if IsSpace(s[0]) {
        BlankIsSpaces(s[1..]);
        forall i | 0 <= i < |s| ensures IsSpace(s[i]) {
          if i > 0 { assert s[i] == s[1..][i - 1]; }
        }
      } else {
        StripRightKeepsFirst(s);
      }
    }
  }

  /** Leading blanks never matter to strip. */
  lemma StripBlankPrefix(a: string, b: string)
    requires Strip(a) == ""
    ensures Strip(a + b) == Strip(b)
  {
    BlankIsSpaces(a);
    StripLeftSkips(a, b);
  }
}

/** Appending, tearing, healing and reopening; and what redaction keeps out of all of it. */
module AuditRecovery {
  import opened Domain
  import opened JsonValues
  import opened Redaction
  import opened AuditChain
  import opened AuditTheorems
  import opened TextLines
  import Text

  lemma {:induction false} EntriesJoin(p: Primitives, a: seq<string>, b: seq<string>)
    ensures Entries(p, a + b) == Entries(p, a) + Entries(p, b)
    ensures AllObjects(p, a + b) <==> AllObjects(p, a) && AllObjects(p, b)
  {
    if a == [] {
      assert a + b == b;
    } else {
      assert (a + b)[1..] == a[1..] + b;
      EntriesJoin(p, a[1..], b);
      AllObjectsSplit(p, a);
      AllObjectsSplit(p, a + b);
    }
  }

  lemma EntriesOne(p: Primitives, line: string)
    ensures Entries(p, [line]) == if IsBlank(line) || !IsObject(p, line) then [] else [p.dec(Text.Strip(line)).value.fields]
    ensures AllObjects(p, [line]) <==> IsBlank(line) || IsObject(p, line)
  {
    assert [line][1..] == [];
    assert Entries(p, [line]) == if IsBlank(line) || !IsObject(p, line) then Entries(p, [])
                                 else [p.dec(Text.Strip(line)).value.fields] + Entries(p, []);
  }

  // ---------------------------------------------------------------- one append

  /** The log's memory agrees with what verification recomputes from the file. */
  predicate Consistent(p: Primitives, s: LogState) {
    var l := VerifyLinks(p, s.file, None);
    l.Intact? && l.pos.last == s.last && l.pos.count == s.count
  }

  predicate CleanEnd(text: string) {
    IsBlank(TailOf(text))
  }

  predicate Appendable(body: Fields) {
    JObj(body).Finite() && body.Keys !! HASH_MAC_FIELDS
  }

  lemma StoredFacts(p: Primitives, body: Fields)
    requires p.Framed() && Appendable(body)
    ensures BodyOf(Stored(p, body)) == body && JObj(Stored(p, body)).Finite()
    ensures Carries(p, Stored(p, body), body)
    ensures p.dec(p.enc(Stored(p, body))) == Some(JObj(Stored(p, body)))
  {
    var e := Stored(p, body);
    assert BodyOf(e) == body;
    assert JObj(e).Finite() by {
      forall k | k in e ensures e[k].Finite() {
        if k in body && k != "entry_hash" && k != "mac" { assert e[k] == body[k]; }
      }
    }
    assert p.FramedAt(e);
  }

  lemma LineReadsBack(p: Primitives, blank: string, body: Fields)
    requires p.Framed() && Appendable(body) && IsBlank(blank)
    ensures var line := blank + p.enc(Stored(p, body)) + "\n";
            !IsBlank(line) && IsObject(p, line) && p.dec(Text.Strip(line)).value.fields == Stored(p, body)
  {
    var enc := p.enc(Stored(p, body));
    StoredFacts(p, body);
    assert p.FramedAt(Stored(p, body));
    StripNewline(blank + enc);
    StripBlankPrefix(blank, enc);
  }

  lemma NextBodyAppendable(p: Primitives, record: Fields, last: Option<string>, count: nat)
    requires JObj(NextBody(record, last, count)).Finite()
    ensures Appendable(NextBody(record, last, count))
  {
  }

  lemma NextEntryLinks(p: Primitives, es: seq<Fields>, record: Fields)
    requires p.Framed() && Linked(p, es)
    requires JObj(NextBody(record, HashBefore(p, es, |es|), |es|)).Finite()
    ensures var e := Stored(p, NextBody(record, HashBefore(p, es, |es|), |es|));
            Linked(p, es + [e]) && HashOf(p, e) == p.sha(NextBody(record, HashBefore(p, es, |es|), |es|))
  {
    var body := NextBody(record, HashBefore(p, es, |es|), |es|);
    NextBodyAppendable(p, record, HashBefore(p, es, |es|), |es|);
    StoredFacts(p, body);
    LinkedSnoc(p, es, Stored(p, body));
  }

  /** The torn text of two entries run together is refused. */
  lemma RunTogetherIsTorn(p: Primitives, tail: string, body: Fields)
    requires p.Framed() && !IsBlank(tail) && IsObject(p, tail)
    ensures p.Torn(tail + p.enc(Stored(p, body)) + "\n")
  {
    assert p.FramedAt(Stored(p, body));
    assert p.Torn(tail + p.enc(Stored(p, body)));
    StripNewline(tail + p.enc(Stored(p, body)));
  }

  /** The objects on one line: none or one. */
  function LineEntries(p: Primitives, line: string): seq<Fields> {
    if IsBlank(line) || !IsObject(p, line) then [] else [p.dec(Text.Strip(line)).value.fields]
  }

  lemma EntriesOfParts(p: Primitives, text: string)
    ensures Entries(p, Lines(text)) == Entries(p, Lines(HeadOf(text))) + LineEntries(p, TailOf(text))
    ensures AllObjects(p, Lines(text)) <==>
            AllObjects(p, Lines(HeadOf(text))) && (IsBlank(TailOf(text)) || IsObject(p, TailOf(text)))
  {
    var head, tail := Lines(HeadOf(text)), TailOf(text);
    LinesOfParts(text);
    EntriesJoin(p, head, if tail == "" then [] else [tail]);
    EntriesOne(p, tail);
  }

  lemma EntriesAfterAppend(p: Primitives, text: string, enc: string)
    requires '\n' !in enc
    ensures var line := TailOf(text) + enc + "\n"; var after := Lines(text + (enc + "\n"));
            && Entries(p, after) == Entries(p, Lines(HeadOf(text))) + LineEntries(p, line)
            && (AllObjects(p, after) <==> AllObjects(p, Lines(HeadOf(text))) && (IsBlank(line) || IsObject(p, line)))
  {
    var line := TailOf(text) + enc + "\n";
    LinesAfterAppend(text, enc);
    EntriesJoin(p, Lines(HeadOf(text)), [line]);
    EntriesOne(p, line);
  }

  /** Memory and file agree, in terms of the entries. */
  lemma ConsistentMeans(p: Primitives, s: LogState)
    ensures Consistent(p, s) <==>
            var es := Entries(p, Lines(TextOf(s.file)));
            && AllObjects(p, Lines(TextOf(s.file))) && Linked(p, es)
            && s.last == HashBefore(p, es, |es|) && s.count == |es|
  {
    AcceptedExactlyWhenLinked(p, TextOf(s.file), None);
  }

  lemma CleanAppendEntries(p: Primitives, text: string, body: Fields)
    requires p.Framed() && Appendable(body) && CleanEnd(text) && AllObjects(p, Lines(text))
    ensures AllObjects(p, Lines(text + LineOf(p, body)))
    ensures Entries(p, Lines(text + LineOf(p, body))) == Entries(p, Lines(text)) + [Stored(p, body)]
  {
    BlankTail(p, text);
    LineReadsBack(p, TailOf(text), body);
    assert p.FramedAt(Stored(p, body));
    EntriesAfterAppend(p, text, p.enc(Stored(p, body)));
  }

  /** A blank tail holds no entry. */
  lemma BlankTail(p: Primitives, text: string)
    requires CleanEnd(text)
    ensures Entries(p, Lines(text)) == Entries(p, Lines(HeadOf(text)))
    ensures AllObjects(p, Lines(text)) <==> AllObjects(p, Lines(HeadOf(text)))
  {
    EntriesOfParts(p, text);
  }

  lemma ExtendedIsConsistent(p: Primitives, es: seq<Fields>, record: Fields, s: LogState, text: string, body: Fields)
    requires p.Framed() && Linked(p, es) && s.last == HashBefore(p, es, |es|) && s.count == |es|
    requires body == NextBody(record, s.last, s.count) && JObj(body).Finite()
    requires AllObjects(p, Lines(text)) && Entries(p, Lines(text)) == es + [Stored(p, body)]
    ensures Consistent(p, LogState(Some(text), Some(p.sha(body)), s.count + 1))
  {
    NextEntryLinks(p, es, record);
    ConsistentMeans(p, LogState(Some(text), Some(p.sha(body)), s.count + 1));
  }

  lemma CleanAppend(p: Primitives, s: LogState, record: Fields, body: Fields, text: string)
    requires p.Framed() && Consistent(p, s) && text == TextOf(s.file) && CleanEnd(text)
    requires body == NextBody(record, s.last, s.count) && JObj(body).Finite()
    ensures Consistent(p, LogState(Some(text + LineOf(p, body)), Some(p.sha(body)), s.count + 1))
  {
    ConsistentMeans(p, s);
    NextBodyAppendable(p, record, s.last, s.count);
    CleanAppendEntries(p, text, body);
    ExtendedIsConsistent(p, Entries(p, Lines(text)), record, s, text + LineOf(p, body), body);
  }

  lemma UncleanAppend(p: Primitives, s: LogState, body: Fields, text: string)
    requires p.Framed() && Consistent(p, s) && text == TextOf(s.file) && !CleanEnd(text)
    ensures !Consistent(p, LogState(Some(text + LineOf(p, body)), Some(p.sha(body)), s.count + 1))
  {
    var s' := LogState(Some(text + LineOf(p, body)), Some(p.sha(body)), s.count + 1);
    ConsistentMeans(p, s);
    EntriesOfParts(p, text);
    assert p.FramedAt(Stored(p, body));
    EntriesAfterAppend(p, text, p.enc(Stored(p, body)));
    RunTogetherIsTorn(p, TailOf(text), body);
    ConsistentMeans(p, s');
  }

  /** After a successful append the log verifies exactly when the file ended cleanly before it: an accepted last
      line that lacks only its newline is not healed, and the next entry is then written onto it. */
  lemma AppendVerifiesExactlyWhenCleanEnd(p: Primitives, s: LogState, record: seq<Item>)
    requires p.Framed() && Consistent(p, s)
    requires Append(p, s, record, Writes).1.Appended?
    ensures Consistent(p, Append(p, s, record, Writes).0) <==> CleanEnd(TextOf(s.file))
  {
    var fields, text := RecordFields(p, record), TextOf(s.file);
    var body := NextBody(fields, s.last, s.count);
    if CleanEnd(text) {
      CleanAppend(p, s, fields, body, text);
    } else {
      UncleanAppend(p, s, body, text);
    }
  }
}
