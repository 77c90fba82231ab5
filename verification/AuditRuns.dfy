/** Whole runs of the audit log: writes, failed writes, crashes that tear the last line, and reopening. */
module AuditRuns {
  import opened Domain
  import opened JsonValues
  import opened Redaction
  import opened AuditChain
  import opened AuditTheorems
  import opened TextLines
  import opened AuditRecovery
  import opened AuditFaults
  import Text

  // ---------------------------------------------------------------- what the file of a log is

  function FileOf(p: Primitives, bodies: seq<Fields>): string {
    if bodies == [] then ""
    else FileOf(p, bodies[..|bodies| - 1]) + LineOf(p, bodies[|bodies| - 1])
  }

  function StoredAll(p: Primitives, bodies: seq<Fields>): seq<Fields> {
    seq(|bodies|, i requires 0 <= i < |bodies| => Stored(p, bodies[i]))
  }

  function LastHash(p: Primitives, bodies: seq<Fields>): Option<string> {
    if bodies == [] then None else Some(p.sha(bodies[|bodies| - 1]))
  }

  /** The log holds exactly these entries, in its file and in its memory. */
  predicate Represents(p: Primitives, s: LogState, bodies: seq<Fields>) {
    && IssuedChain(p, bodies)
    && TextOf(s.file) == FileOf(p, bodies) && s.last == LastHash(p, bodies) && s.count == |bodies|
  }

  lemma IssuedPrefix(p: Primitives, bodies: seq<Fields>, k: nat)
    requires IssuedChain(p, bodies) && k <= |bodies|
    ensures IssuedChain(p, bodies[..k])
  {
    forall i | 0 <= i < k ensures IssuedAt(p, bodies[..k], i) {
      assert IssuedAt(p, bodies, i);
    }
  }

  lemma IssuedNext(p: Primitives, bodies: seq<Fields>, record: Fields)
    requires IssuedChain(p, bodies)
    requires JObj(NextBody(record, LastHash(p, bodies), |bodies|)).Finite()
    ensures IssuedChain(p, bodies + [NextBody(record, LastHash(p, bodies), |bodies|)])
  {
    var more := bodies + [NextBody(record, LastHash(p, bodies), |bodies|)];
    forall i | 0 <= i < |more| ensures IssuedAt(p, more, i) {
      if i < |bodies| { assert IssuedAt(p, bodies, i); }
    }
  }

  lemma CompleteEndsClean(text: string)
    requires Complete(text)
    ensures CleanEnd(text)
  {
    assert TailOf(text) == "";
  }

  lemma {:induction false} FileFacts(p: Primitives, bodies: seq<Fields>)
    requires p.Framed() && IssuedChain(p, bodies)
    ensures Complete(FileOf(p, bodies)) && AllObjects(p, Lines(FileOf(p, bodies)))
    ensures Entries(p, Lines(FileOf(p, bodies))) == StoredAll(p, bodies)
    ensures |Lines(FileOf(p, bodies))| == |bodies|
  {
    if bodies != [] {
      var n := |bodies| - 1;
      IssuedPrefix(p, bodies, n);
      FileFacts(p, bodies[..n]);
      assert IssuedAt(p, bodies, n);
      FileSnoc(p, FileOf(p, bodies[..n]), bodies[n]);
      StoredAllSnoc(p, bodies);
    }
  }

  lemma StoredAllSnoc(p: Primitives, bodies: seq<Fields>)
    requires bodies != []
    ensures StoredAll(p, bodies) == StoredAll(p, bodies[..|bodies| - 1]) + [Stored(p, bodies[|bodies| - 1])]
  {
  }

  lemma LineIsOne(p: Primitives, body: Fields)
    requires p.Framed()
    ensures Lines(LineOf(p, body)) == [LineOf(p, body)] && LineOf(p, body) != "" && Complete(LineOf(p, body))
  {
    assert p.FramedAt(Stored(p, body));
    OneLine(LineOf(p, body));
  }

  lemma CompleteJoin(a: string, b: string)
    requires Complete(b) && b != ""
    ensures Complete(a + b)
  {
  }

  lemma FileSnoc(p: Primitives, text: string, body: Fields)
    requires p.Framed() && Appendable(body) && Complete(text) && AllObjects(p, Lines(text))
    ensures var after := text + LineOf(p, body);
            && Complete(after) && AllObjects(p, Lines(after)) && |Lines(after)| == |Lines(text)| + 1
            && Entries(p, Lines(after)) == Entries(p, Lines(text)) + [Stored(p, body)]
  {
    var line := LineOf(p, body);
    LineIsOne(p, body);
    CompleteJoin(text, line);
    SnocCount(text, line);
    CompleteEndsClean(text);
    CleanAppendEntries(p, text, body);
  }

  lemma SnocCount(text: string, line: string)
    requires Complete(text) && Lines(line) == [line]
    ensures |Lines(text + line)| == |Lines(text)| + 1
  {
    LinesJoin(text, line);
  }

  lemma StoredAllLinked(p: Primitives, bodies: seq<Fields>)
    requires p.Framed() && IssuedChain(p, bodies)
    ensures Linked(p, StoredAll(p, bodies))
    ensures HashBefore(p, StoredAll(p, bodies), |bodies|) == LastHash(p, bodies)
  {
    forall i | 0 <= i < |bodies| ensures Carries(p, StoredAll(p, bodies)[i], bodies[i]) {
      assert IssuedAt(p, bodies, i);
      StoredFacts(p, bodies[i]);
    }
    CarriedEntriesLink(p, StoredAll(p, bodies), bodies);
  }

  /** Memory and file agree: what the log believes is what verifying its file recomputes. */
  lemma RepresentsConsistent(p: Primitives, s: LogState, bodies: seq<Fields>)
    requires p.Framed() && Represents(p, s, bodies)
    ensures Consistent(p, s)
  {
    FileFacts(p, bodies);
    StoredAllLinked(p, bodies);
    ConsistentMeans(p, s);
  }

  // ---------------------------------------------------------------- a torn last line

  lemma WalkTorn(p: Primitives, lines: seq<string>, torn: string)
    requires Linked(p, Entries(p, lines)) && AllObjects(p, lines) && p.Torn(torn)
    ensures Walk(p, lines + [torn], START, None) == Broken(TailMalformation, PosOf(p, Entries(p, lines), None))
  {
    AfterGoodLines(p, lines, torn);
    assert [torn][1..] == [];
  }

  /** A last line is judged at the position that the accepted lines before it reach. */
  lemma AfterGoodLines(p: Primitives, lines: seq<string>, line: string)
    requires Linked(p, Entries(p, lines)) && AllObjects(p, lines)
    ensures Walk(p, lines + [line], START, None) == Walk(p, [line], PosOf(p, Entries(p, lines), None), None)
  {
    var all, n := lines + [line], |lines|;
    assert all[..n] == lines && all[n..] == [line];
    assert [] + Entries(p, lines) == Entries(p, lines);
    WalkPasses(p, [], all, n, None);
  }

  lemma {:induction false} ConcatLines(text: string)
    ensures Concat(Lines(text)) == text
    decreases |text|
  {
    if text != "" {
      var n := LineLength(text);
      ConcatLines(text[n..]);
      assert text == text[..n] + text[n..];
    }
  }

  /** Verifying any complete, linked text followed by one torn line stops at that line. */
  lemma TornTailFound(p: Primitives, text: string, torn: string)
    requires Complete(text) && AllObjects(p, Lines(text)) && Linked(p, Entries(p, Lines(text)))
    requires p.Torn(torn) && Lines(torn) == [torn]
    ensures Lines(text + torn) == Lines(text) + [torn]
    ensures VerifyLinks(p, Some(text + torn), None) == Broken(TailMalformation, PosOf(p, Entries(p, Lines(text)), None))
  {
    LinesJoin(text, torn);
    assert [] + Entries(p, Lines(text)) == Entries(p, Lines(text));
    WalkTorn(p, Lines(text), torn);
  }

  lemma HealedToPart(text: string, torn: string)
    requires Lines(text + torn) == Lines(text) + [torn]
    ensures Healed(text + torn, |Lines(text)|) == text
  {
    ConcatLines(text);
    assert (Lines(text) + [torn])[..|Lines(text)|] == Lines(text);
  }

  /** Opening a log file that ends in one torn line drops that line and nothing else. */
  lemma TornTailDropped(p: Primitives, bodies: seq<Fields>, torn: string)
    requires p.Framed() && IssuedChain(p, bodies) && p.Torn(torn) && Lines(torn) == [torn]
    ensures Open(p, Some(FileOf(p, bodies) + torn))
            == Opened(LogState(Some(FileOf(p, bodies)), LastHash(p, bodies), |bodies|))
  {
    FileFacts(p, bodies);
    StoredAllLinked(p, bodies);
    TornTailFound(p, FileOf(p, bodies), torn);
    HealedToPart(FileOf(p, bodies), torn);
  }

  /** Opening a log file that ends cleanly changes nothing, and recovers head and count. */
  lemma OpenIntact(p: Primitives, s: LogState)
    requires Consistent(p, s)
    ensures Open(p, s.file) == Opened(s)
  {
  }

  // ---------------------------------------------------------------- runs

  /** Reopen follows a clean stop; Crash is the process dying when the first k characters of the line of this
      append had reached the disk, and the log being opened again. */
  datatype Op = Write(record: seq<Item>, writer: Writer) | Crash(record: seq<Item>, k: nat) | Reopen

  function BodyFor(p: Primitives, s: LogState, record: seq<Item>): Fields {
    NextBody(RecordFields(p, record), s.last, s.count)
  }

  /** The file a crash leaves. */
  function Remains(p: Primitives, s: LogState, record: seq<Item>, k: nat): Option<string> {
    var body := BodyFor(p, s, record);
    if !JObj(body).Finite() then s.file else Grown(s.file, LineOf(p, body), k)
  }

  function Step(p: Primitives, s: LogState, op: Op): OpenResult {
    match op
    case Write(record, writer) => Opened(Append(p, s, record, writer).0)
    case Crash(record, k) => Open(p, Remains(p, s, record, k))
    case Reopen => Open(p, s.file)
  }

  function Run(p: Primitives, s: LogState, ops: seq<Op>): OpenResult {
    if ops == [] then Opened(s)
    else
      var before := Run(p, s, ops[..|ops| - 1]);
      if before.Refused? then before else Step(p, before.state, ops[|ops| - 1])
  }

  /** How much of its line the operation brings to the disk; all of it when the write is acknowledged. */
  predicate Lands(op: Op, line: string)
    requires !op.Reopen?
  {
    match op
    case Write(_, Writes) => true
    case Write(_, Fails(reached)) => reached >= |line|
    case Crash(_, k) => k >= |line|
  }

  /** The entries that count as written: acknowledged, or wholly on disk when the writer raised or the process died. */
  function Durable(p: Primitives, bodies: seq<Fields>, op: Op): seq<Fields> {
    if op.Reopen? then bodies
    else
      var next := NextBody(RecordFields(p, op.record), LastHash(p, bodies), |bodies|);
      if JObj(next).Finite() && Lands(op, LineOf(p, next)) then bodies + [next] else bodies
  }

  /** The writer raised with something of the line on the disk: the log's memory no longer describes its file. */
  predicate Partial(op: Op) {
    op.Write? && op.writer.Fails? && op.writer.reached > 0
  }

  function DurableAll(p: Primitives, bodies: seq<Fields>, ops: seq<Op>): seq<Fields> {
    if ops == [] then bodies else Durable(p, DurableAll(p, bodies, ops[..|ops| - 1]), ops[|ops| - 1])
  }

  /** The one tear that is not seen: everything of the line but its newline. */
  predicate LosesOnlyTheNewline(p: Primitives, bodies: seq<Fields>, op: Op) {
    && (op.Crash? || Partial(op))
    && (if op.Crash? then op.k else op.writer.reached) + 1
       == |LineOf(p, NextBody(RecordFields(p, op.record), LastHash(p, bodies), |bodies|))|
  }

  lemma WriteRepresents(p: Primitives, s: LogState, bodies: seq<Fields>, record: Fields, file: string)
    requires Represents(p, s, bodies) && JObj(NextBody(record, s.last, s.count)).Finite()
    requires file == TextOf(s.file) + LineOf(p, NextBody(record, s.last, s.count))
    ensures var body := NextBody(record, s.last, s.count);
            Represents(p, LogState(Some(file), Some(p.sha(body)), s.count + 1), bodies + [body])
  {
    IssuedNext(p, bodies, record);
    var more := bodies + [NextBody(record, s.last, s.count)];
    assert more[..|more| - 1] == bodies;
  }

  lemma CutIsTorn(p: Primitives, body: Fields, k: nat)
    requires p.Framed() && 0 < k && k + 1 < |LineOf(p, body)|
    ensures var torn := Cut(LineOf(p, body), k); p.Torn(torn) && Lines(torn) == [torn]
  {
    assert p.FramedAt(Stored(p, body));
    var torn := Cut(LineOf(p, body), k);
    assert torn == p.enc(Stored(p, body))[..k];
    OneLine(torn);
  }

  lemma CrashRepresents(p: Primitives, s: LogState, bodies: seq<Fields>, op: Op)
    requires p.Framed() && Represents(p, s, bodies) && op.Crash? && !LosesOnlyTheNewline(p, bodies, op)
    ensures Step(p, s, op).Opened? && Represents(p, Step(p, s, op).state, Durable(p, bodies, op))
  {
    var record := RecordFields(p, op.record);
    var body := BodyFor(p, s, op.record);
    RepresentsConsistent(p, s, bodies);
    if !JObj(body).Finite() || op.k == 0 {
      OpenIntact(p, s);
    } else if op.k >= |LineOf(p, body)| {
      var file := TextOf(s.file) + LineOf(p, body);
      WriteRepresents(p, s, bodies, record, file);
      var s' := LogState(Some(file), Some(p.sha(body)), s.count + 1);
      RepresentsConsistent(p, s', bodies + [body]);
      OpenIntact(p, s');
    } else {
      CutIsTorn(p, body, op.k);
      TornTailDropped(p, bodies, Cut(LineOf(p, body), op.k));
    }
  }

  lemma StepRepresents(p: Primitives, s: LogState, bodies: seq<Fields>, op: Op)
    requires p.Framed() && Represents(p, s, bodies) && !LosesOnlyTheNewline(p, bodies, op) && !Partial(op)
    ensures Step(p, s, op).Opened? && Represents(p, Step(p, s, op).state, Durable(p, bodies, op))
  {
    match op
    case Write(record, writer) =>
      var fields := RecordFields(p, record);
      var body := NextBody(fields, s.last, s.count);
      if JObj(body).Finite() && writer.Writes? {
        WriteRepresents(p, s, bodies, fields, TextOf(s.file) + LineOf(p, body));
      }
    case Crash(_, _) => CrashRepresents(p, s, bodies, op);
    case Reopen =>
      RepresentsConsistent(p, s, bodies);
      OpenIntact(p, s);
  }

  /** A write that fails halfway, with the log then reopened, is a crash at the same character. */
  lemma FailThenReopenIsCrash(p: Primitives, s: LogState, bodies: seq<Fields>, record: seq<Item>, k: nat)
    ensures Step(p, s, Write(record, Fails(k))).Opened?
    ensures Step(p, Step(p, s, Write(record, Fails(k))).state, Reopen) == Step(p, s, Crash(record, k))
    ensures Durable(p, Durable(p, bodies, Write(record, Fails(k))), Reopen) == Durable(p, bodies, Crash(record, k))
    ensures k > 0 ==> LosesOnlyTheNewline(p, bodies, Write(record, Fails(k))) == LosesOnlyTheNewline(p, bodies, Crash(record, k))
  {
  }

  /** No tear goes unseen, and a write that fails halfway is followed by reopening the log, if by anything. */
  predicate Seen(p: Primitives, bodies: seq<Fields>, ops: seq<Op>) {
    forall i | 0 <= i < |ops| :: SeenAt(p, bodies, ops, i)
  }

  predicate SeenAt(p: Primitives, bodies: seq<Fields>, ops: seq<Op>, i: nat)
    requires i < |ops|
  {
    && !LosesOnlyTheNewline(p, DurableAll(p, bodies, ops[..i]), ops[i])
    && (Partial(ops[i]) && i + 1 < |ops| ==> ops[i + 1].Reopen?)
  }

  lemma SeenPrefix(p: Primitives, bodies: seq<Fields>, ops: seq<Op>, n: nat)
    requires Seen(p, bodies, ops) && n <= |ops|
    ensures Seen(p, bodies, ops[..n])
  {
    forall i | 0 <= i < n ensures SeenAt(p, bodies, ops[..n], i) {
      assert SeenAt(p, bodies, ops, i);
      assert ops[..n][..i] == ops[..i];
    }
  }

  predicate EndsPartial(ops: seq<Op>) {
    ops != [] && Partial(ops[|ops| - 1])
  }

  lemma RunSnoc(p: Primitives, s: LogState, bodies: seq<Fields>, ops: seq<Op>, op: Op)
    ensures Run(p, s, ops).Opened? ==> Run(p, s, ops + [op]) == Step(p, Run(p, s, ops).state, op)
    ensures DurableAll(p, bodies, ops + [op]) == Durable(p, DurableAll(p, bodies, ops), op)
  {
    assert (ops + [op])[..|ops|] == ops;
  }

  /** One more operation on a log that represents its entries. */
  lemma RunOneMore(p: Primitives, s: LogState, bodies: seq<Fields>, ops: seq<Op>, op: Op)
    requires p.Framed() && Run(p, s, ops).Opened? && Represents(p, Run(p, s, ops).state, DurableAll(p, bodies, ops))
    requires !LosesOnlyTheNewline(p, DurableAll(p, bodies, ops), op)
    ensures Run(p, s, ops + [op]).Opened?
    ensures !Partial(op) ==> Represents(p, Run(p, s, ops + [op]).state, DurableAll(p, bodies, ops + [op]))
  {
    RunSnoc(p, s, bodies, ops, op);
    if Partial(op) {
      FailThenReopenIsCrash(p, Run(p, s, ops).state, bodies, op.record, op.writer.reached);
    } else {
      StepRepresents(p, Run(p, s, ops).state, DurableAll(p, bodies, ops), op);
    }
  }

  /** A write that failed halfway, and the reopening after it. */
  lemma RunTwoMore(p: Primitives, s: LogState, bodies: seq<Fields>, ops: seq<Op>, op: Op)
    requires p.Framed() && Run(p, s, ops).Opened? && Represents(p, Run(p, s, ops).state, DurableAll(p, bodies, ops))
    requires Partial(op) && !LosesOnlyTheNewline(p, DurableAll(p, bodies, ops), op)
    ensures var all := ops + [op] + [Reopen];
            Run(p, s, all).Opened? && Represents(p, Run(p, s, all).state, DurableAll(p, bodies, all))
  {
    var t, held := Run(p, s, ops).state, DurableAll(p, bodies, ops);
    RunSnoc(p, s, bodies, ops, op);
    RunSnoc(p, s, bodies, ops + [op], Reopen);
    FailThenReopenIsCrash(p, t, held, op.record, op.writer.reached);
    CrashRepresents(p, t, held, Crash(op.record, op.writer.reached));
  }

  /** Whenever no tear loses exactly the newline, and a write that fails halfway is followed by reopening the log, any
      run of writes, failed writes, crashes and reopenings leaves exactly the durable entries: the log opens each time,
      its file is those entries line by line, its memory is what verification recomputes, and it verifies -- at every
      point but between such a failure and the reopening. */
  lemma {:induction false} RunsKeepExactlyTheDurable(p: Primitives, s: LogState, bodies: seq<Fields>, ops: seq<Op>)
    requires p.Framed() && Represents(p, s, bodies) && Seen(p, bodies, ops)
    ensures Run(p, s, ops).Opened?
    ensures !EndsPartial(ops) ==> Represents(p, Run(p, s, ops).state, DurableAll(p, bodies, ops))
    ensures !EndsPartial(ops) ==> Consistent(p, Run(p, s, ops).state)
    decreases ops, 1
  {
    if ops == [] {
      RepresentsConsistent(p, s, bodies);
    } else {
      var n := |ops| - 1;
      assert SeenAt(p, bodies, ops, n);
      SeenPrefix(p, bodies, ops, n);
      if EndsPartial(ops[..n]) {
        AfterPartial(p, s, bodies, ops);
      } else {
        RunsKeepExactlyTheDurable(p, s, bodies, ops[..n]);
        assert ops == ops[..n] + [ops[n]];
        RunOneMore(p, s, bodies, ops[..n], ops[n]);
      }
      if !EndsPartial(ops) {
        RepresentsConsistent(p, Run(p, s, ops).state, DurableAll(p, bodies, ops));
      }
    }
  }

  lemma {:induction false} AfterPartial(p: Primitives, s: LogState, bodies: seq<Fields>, ops: seq<Op>)
    requires p.Framed() && Represents(p, s, bodies) && Seen(p, bodies, ops)
    requires |ops| >= 2 && Partial(ops[|ops| - 2])
    ensures Run(p, s, ops).Opened? && Represents(p, Run(p, s, ops).state, DurableAll(p, bodies, ops)) && !EndsPartial(ops)
    decreases ops, 0
  {
    var m := |ops| - 2;
    SplitPartial(p, bodies, ops);
    RunsKeepExactlyTheDurable(p, s, bodies, ops[..m]);
    RunTwoMore(p, s, bodies, ops[..m], ops[m]);
  }

  /** Before a write that failed halfway the run is as required, and after it the log is reopened. */
  lemma SplitPartial(p: Primitives, bodies: seq<Fields>, ops: seq<Op>)
    requires Seen(p, bodies, ops) && |ops| >= 2 && Partial(ops[|ops| - 2])
    ensures var m := |ops| - 2;
            && Seen(p, bodies, ops[..m]) && !EndsPartial(ops[..m]) && ops == ops[..m] + [ops[m]] + [Reopen]
            && !LosesOnlyTheNewline(p, DurableAll(p, bodies, ops[..m]), ops[m])
  {
    var m := |ops| - 2;
    assert SeenAt(p, bodies, ops, m);
    SeenPrefix(p, bodies, ops, m);
    if m > 0 { assert SeenAt(p, bodies, ops, m - 1); }
  }

  lemma {:induction false} DurableOnlyGrows(p: Primitives, bodies: seq<Fields>, ops: seq<Op>)
    ensures bodies <= DurableAll(p, bodies, ops)
  {
    if ops != [] {
      DurableOnlyGrows(p, bodies, ops[..|ops| - 1]);
    }
  }

  lemma HashAt(p: Primitives, all: seq<Fields>, i: nat)
    requires p.Framed() && IssuedChain(p, all) && i < |all|
    ensures HashOf(p, StoredAll(p, all)[i]) == p.sha(all[i])
  {
    assert IssuedAt(p, all, i);
    StoredFacts(p, all[i]);
  }

  lemma AnchorAnswer(p: Primitives, text: string, all: seq<Fields>, n: nat)
    requires p.Framed() && IssuedChain(p, all) && text == FileOf(p, all) && 0 < n <= |all|
    ensures VerifyPrefix(p, Some(text), Some(p.sha(all[n - 1])), Some(n)).ok
  {
    FileFacts(p, all);
    StoredAllLinked(p, all);
    HashAt(p, all, n - 1);
    PrefixAnswer(p, text, p.sha(all[n - 1]), n);
  }

  /** An anchor taken at any time is accepted after whatever the log lives through later. */
  lemma AnchorSurvives(p: Primitives, s: LogState, bodies: seq<Fields>, ops: seq<Op>)
    requires p.Framed() && Represents(p, s, bodies) && bodies != [] && Seen(p, bodies, ops) && !EndsPartial(ops)
    ensures Run(p, s, ops).Opened? && VerifyPrefix(p, Run(p, s, ops).state.file, s.last, Some(s.count)).ok
  {
    RunsKeepExactlyTheDurable(p, s, bodies, ops);
    DurableOnlyGrows(p, bodies, ops);
    AnchorOnLater(p, Run(p, s, ops).state, DurableAll(p, bodies, ops), s, bodies);
  }

  lemma AnchorOnLater(p: Primitives, later: LogState, all: seq<Fields>, s: LogState, bodies: seq<Fields>)
    requires p.Framed() && Represents(p, later, all) && Represents(p, s, bodies) && bodies <= all && bodies != []
    ensures VerifyPrefix(p, later.file, s.last, Some(s.count)).ok
  {
    NonEmptyFile(p, all);
    assert all[|bodies| - 1] == bodies[|bodies| - 1];
    AnchorAnswer(p, FileOf(p, all), all, |bodies|);
  }

  lemma NonEmptyFile(p: Primitives, all: seq<Fields>)
    requires all != []
    ensures FileOf(p, all) != ""
  {
  }

  /** What head() reports -- the log's last hash and count -- is what verifying the file recomputes, the prefix check
      accepts it as an anchor, and no other whole anchor passes the exact check. */
  lemma HeadIsWhatVerifies(p: Primitives, s: LogState)
    requires Consistent(p, s)
    ensures VerifyLinks(p, s.file, None) == Intact(Pos(s.last, s.count, None))
    ensures VerifyPrefix(p, s.file, s.last, Some(s.count)).ok
    ensures forall head, n: nat :: s.file.Some? && n >= 1 ==>
              (VerifyIntegrity(p, s.file, Some(head), Some(n)).ok <==> s.last == Some(head) && s.count == n)
  {
    ConsistentMeans(p, s);
    if s.file.Some? {
      AcceptedExactlyWhenLinked(p, s.file.value, None);
      if s.count >= 1 {
        PrefixAnswer(p, s.file.value, s.last.value, s.count);
      }
      forall head, n: nat | n >= 1
        ensures VerifyIntegrity(p, s.file, Some(head), Some(n)).ok <==> s.last == Some(head) && s.count == n
      {
        ExactAnswer(p, s.file.value, head, n);
      }
    }
  }

  // ---------------------------------------------------------------- the tear that is not seen

  /** A crash that loses only the newline: the log reopens with the new entry, as it should. But that state is not
      clean: the next entry is written onto the same line, append reports success, and reopening the log then drops
      both -- the one that was whole and the one that was acknowledged. */
  lemma LostNewlineLosesTwo(p: Primitives, s: LogState, bodies: seq<Fields>, op: Op, record: seq<Item>)
    requires p.Framed() && Represents(p, s, bodies) && op.Crash? && LosesOnlyTheNewline(p, bodies, op)
    requires JObj(BodyFor(p, s, op.record)).Finite()
    ensures var began := Step(p, s, op);
            && began.Opened? && Consistent(p, began.state) && began.state.count == |bodies| + 1
            && (JObj(BodyFor(p, began.state, record)).Finite() ==>
                  var (after, result) := Append(p, began.state, record, Writes);
                  && result.Appended?
                  && Step(p, after, Reopen)
                     == Opened(LogState(Some(FileOf(p, bodies)), LastHash(p, bodies), |bodies|)))
  {
    var body := BodyFor(p, s, op.record);
    CrashLeavesBareLine(p, s, bodies, op, body);
    AppendOntoBareLine(p, bodies, body, BareState(p, bodies, body), record);
  }

  /** All entries, and one more without its newline. */
  function BareState(p: Primitives, bodies: seq<Fields>, body: Fields): LogState {
    LogState(Some(FileOf(p, bodies) + p.enc(Stored(p, body))), Some(p.sha(body)), |bodies| + 1)
  }

  lemma CrashLeavesBareLine(p: Primitives, s: LogState, bodies: seq<Fields>, op: Op, body: Fields)
    requires p.Framed() && Represents(p, s, bodies) && op.Crash? && LosesOnlyTheNewline(p, bodies, op)
    requires body == BodyFor(p, s, op.record) && JObj(body).Finite()
    ensures Step(p, s, op) == Opened(BareState(p, bodies, body)) && Consistent(p, BareState(p, bodies, body))
  {
    assert p.FramedAt(Stored(p, body));
    assert Cut(LineOf(p, body), op.k) == p.enc(Stored(p, body));
    WithoutNewline(p, s, bodies, RecordFields(p, op.record), BareState(p, bodies, body));
    OpenIntact(p, BareState(p, bodies, body));
  }

  lemma AppendOntoBareLine(p: Primitives, bodies: seq<Fields>, body: Fields, began: LogState, record: seq<Item>)
    requires p.Framed() && IssuedChain(p, bodies) && Appendable(body) && began == BareState(p, bodies, body)
    ensures JObj(BodyFor(p, began, record)).Finite() ==>
              var (after, result) := Append(p, began, record, Writes);
              && result.Appended?
              && Step(p, after, Reopen) == Opened(LogState(Some(FileOf(p, bodies)), LastHash(p, bodies), |bodies|))
  {
    var next := BodyFor(p, began, record);
    if JObj(next).Finite() {
      RunTogether(p, body, next);
      ConcatAssociates(FileOf(p, bodies), p.enc(Stored(p, body)), LineOf(p, next));
      TornTailDropped(p, bodies, p.enc(Stored(p, body)) + LineOf(p, next));
    }
  }

  lemma WithoutNewline(p: Primitives, s: LogState, bodies: seq<Fields>, record: Fields, began: LogState)
    requires p.Framed() && Represents(p, s, bodies) && JObj(NextBody(record, s.last, s.count)).Finite()
    requires var body := NextBody(record, s.last, s.count);
             began == LogState(Some(FileOf(p, bodies) + p.enc(Stored(p, body))), Some(p.sha(body)), |bodies| + 1)
    ensures Consistent(p, began)
  {
    var text, body := FileOf(p, bodies), NextBody(record, s.last, s.count);
    FileFacts(p, bodies);
    StoredAllLinked(p, bodies);
    BareLineReadsBack(p, body);
    LinesJoin(text, p.enc(Stored(p, body)));
    EntriesJoin(p, Lines(text), [p.enc(Stored(p, body))]);
    EntriesOne(p, p.enc(Stored(p, body)));
    ExtendedIsConsistent(p, StoredAll(p, bodies), record, s, began.file.value, body);
  }

  lemma BareLineReadsBack(p: Primitives, body: Fields)
    requires p.Framed() && Appendable(body)
    ensures var enc := p.enc(Stored(p, body));
            && Lines(enc) == [enc] && !IsBlank(enc) && IsObject(p, enc)
            && p.dec(Text.Strip(enc)).value.fields == Stored(p, body)
  {
    assert p.FramedAt(Stored(p, body));
    StoredFacts(p, body);
    OneLine(p.enc(Stored(p, body)));
  }

  lemma RunTogether(p: Primitives, first: Fields, second: Fields)
    requires p.Framed() && Appendable(first)
    ensures var torn := p.enc(Stored(p, first)) + LineOf(p, second); p.Torn(torn) && Lines(torn) == [torn]
  {
    var a, b := p.enc(Stored(p, first)), p.enc(Stored(p, second));
    assert p.FramedAt(Stored(p, second)) && p.FramedAt(Stored(p, first));
    BareLineReadsBack(p, first);
    RunTogetherIsTorn(p, a, second);
    var torn := a + LineOf(p, second);
    assert torn == a + b + "\n";
    assert torn[..|torn| - 1] == a + b;
    OneLine(torn);
  }

  // ---------------------------------------------------------------- a write that fails halfway

  /** As long as the log is not reopened: after a write that raised, memory and file agree exactly when nothing of the
      line had reached the disk. */
  lemma FailedWriteAgreesExactlyWhenNothingLanded(p: Primitives, s: LogState, bodies: seq<Fields>, record: seq<Item>, k: nat)
    requires p.Framed() && Represents(p, s, bodies) && JObj(BodyFor(p, s, record)).Finite()
    ensures Consistent(p, Step(p, s, Write(record, Fails(k))).state) <==> k == 0
  {
    RepresentsConsistent(p, s, bodies);
    if k > 0 {
      var text, body := FileOf(p, bodies), BodyFor(p, s, record);
      var after := LogState(Some(text + Cut(LineOf(p, body), k)), s.last, s.count);
      FileFacts(p, bodies);
      StoredAllLinked(p, bodies);
      if k + 1 < |LineOf(p, body)| {
        CutIsTorn(p, body, k);
        TornTailFound(p, text, Cut(LineOf(p, body), k));
      } else {
        OneEntryTooMany(p, s, bodies, body, k);
        ConsistentMeans(p, after);
      }
    }
  }

  lemma OneEntryTooMany(p: Primitives, s: LogState, bodies: seq<Fields>, body: Fields, k: nat)
    requires p.Framed() && Represents(p, s, bodies) && Appendable(body) && k + 1 >= |LineOf(p, body)|
    ensures |Entries(p, Lines(FileOf(p, bodies) + Cut(LineOf(p, body), k)))| == |bodies| + 1
  {
    var text, enc := FileOf(p, bodies), p.enc(Stored(p, body));
    FileFacts(p, bodies);
    if k >= |LineOf(p, body)| {
      CompleteEndsClean(text);
      CleanAppendEntries(p, text, body);
    } else {
      assert Cut(LineOf(p, body), k) == enc;
      BareLineReadsBack(p, body);
      LinesJoin(text, enc);
      EntriesJoin(p, Lines(text), [enc]);
      EntriesOne(p, enc);
    }
  }

  // ---------------------------------------------------------------- healing any file

  /** Where a walk that breaks on its tail stopped: everything before is accepted, and gives its position. */
  lemma {:induction false} BrokenAt(p: Primitives, done: seq<Fields>, lines: seq<string>) returns (m: nat)
    requires Linked(p, done)
    requires Walk(p, lines, PosOf(p, done, None), None).Broken?
    requires Walk(p, lines, PosOf(p, done, None), None).fault == TailMalformation
    ensures m < |lines| && AllObjects(p, lines[..m]) && Linked(p, done + Entries(p, lines[..m]))
    ensures Walk(p, lines, PosOf(p, done, None), None).pos == PosOf(p, done + Entries(p, lines[..m]), None)
    decreases |lines|
  {
    assert lines != [];
    if IsBlank(lines[0]) {
      var k := BrokenAt(p, done, lines[1..]);
      m := k + 1;
      BrokenCons(p, lines, k);
      assert Entries(p, lines[..m]) == Entries(p, lines[1..][..k]);
    } else if IsObject(p, lines[0]) {
      var e := p.dec(Text.Strip(lines[0])).value.fields;
      LinkedSnoc(p, done, e);
      PosSnoc(p, done, e, None);
      var k := BrokenAt(p, done + [e], lines[1..]);
      m := k + 1;
      BrokenCons(p, lines, k);
      ConcatAssociates(done, [e], Entries(p, lines[1..][..k]));
    } else {
      m := 0;
      assert lines[..0] == [] && done + [] == done;
    }
  }

  lemma BrokenCons(p: Primitives, lines: seq<string>, k: nat)
    requires lines != [] && k < |lines[1..]| && AllObjects(p, lines[1..][..k]) && (IsBlank(lines[0]) || IsObject(p, lines[0]))
    ensures AllObjects(p, lines[..k + 1])
    ensures Entries(p, lines[..k + 1]) == LineEntries(p, lines[0]) + Entries(p, lines[1..][..k])
  {
    assert lines[..k + 1][1..] == lines[1..][..k];
    AllObjectsSplit(p, lines[..k + 1]);
  }

  predicate NoBlank(lines: seq<string>) {
    forall i | 0 <= i < |lines| :: !IsBlank(lines[i])
  }

  lemma {:induction false} EntriesCount(p: Primitives, lines: seq<string>)
    requires AllObjects(p, lines)
    ensures |Entries(p, lines)| <= |lines|
    ensures |Entries(p, lines)| == |lines| <==> NoBlank(lines)
  {
    if lines != [] {
      AllObjectsSplit(p, lines);
      EntriesCount(p, lines[1..]);
      if NoBlank(lines[1..]) && !IsBlank(lines[0]) {
        forall i | 0 <= i < |lines| ensures !IsBlank(lines[i]) {
          if i > 0 { assert lines[i] == lines[1..][i - 1]; }
        }
      }
      if !NoBlank(lines[1..]) {
        var i :| 0 <= i < |lines[1..]| && IsBlank(lines[1..][i]);
        assert IsBlank(lines[i + 1]);
      }
    }
  }

  lemma EntriesSplitAt(p: Primitives, lines: seq<string>, m: nat, count: nat)
    requires count <= m <= |lines| && AllObjects(p, lines[..m]) && |Entries(p, lines[..m])| == count
    ensures AllObjects(p, lines[..count])
    ensures NoBlank(lines[..count]) <==> Entries(p, lines[..count]) == Entries(p, lines[..m])
    ensures !NoBlank(lines[..count]) ==> |Entries(p, lines[..count])| < count
  {
    assert lines[..m] == lines[..count] + lines[count..m];
    EntriesJoin(p, lines[..count], lines[count..m]);
    EntriesCount(p, lines[..count]);
  }

  /** Healing keeps the first `count` physical lines, although `count` is the number of entries. So the healed file
      verifies to what the log now believes exactly when none of those lines is blank; otherwise an entry that
      verified is cut off and the log disagrees with its own file. */
  lemma HealedAgreesExactlyWhenNoBlank(p: Primitives, text: string)
    requires VerifyLinks(p, Some(text), None).Broken? && VerifyLinks(p, Some(text), None).fault == TailMalformation
    ensures var count := VerifyLinks(p, Some(text), None).pos.count;
            && count < |Lines(text)| && Open(p, Some(text)).Opened?
            && (Consistent(p, Open(p, Some(text)).state) <==> NoBlank(Lines(text)[..count]))
  {
    var lines := Lines(text);
    var m := BrokenAt(p, [], lines);
    var es := Entries(p, lines[..m]);
    assert [] + es == es;
    EntriesCount(p, lines[..m]);
    FirstLinesReadBack(text, |es|);
    EntriesSplitAt(p, lines, m, |es|);
    var began := Open(p, Some(text)).state;
    HealedMeans(p, lines, |es|, es, began);
  }

  /** So for any file: opening a healed log again gives the same log exactly when none of the kept lines is blank. */
  lemma HealingIsIdempotentExactlyWhenNoBlank(p: Primitives, text: string)
    requires VerifyLinks(p, Some(text), None).Broken? && VerifyLinks(p, Some(text), None).fault == TailMalformation
    ensures var count := VerifyLinks(p, Some(text), None).pos.count; var once := Open(p, Some(text));
            && count < |Lines(text)| && once.Opened?
            && (Open(p, once.state.file) == once <==> NoBlank(Lines(text)[..count]))
  {
    HealedAgreesExactlyWhenNoBlank(p, text);
    var s := Open(p, Some(text)).state;
    if Consistent(p, s) {
      OpenIntact(p, s);
    } else if Open(p, s.file) == Opened(s) {
      ReopenedUnchanged(p, s);
    }
  }

  /** A log that opens to itself agrees with its file: healing always shortens the file. */
  lemma ReopenedUnchanged(p: Primitives, s: LogState)
    requires s.file.Some? && Open(p, s.file) == Opened(s)
    ensures Consistent(p, s)
  {
    var l := VerifyLinks(p, s.file, None);
    if l.Broken? {
      WalkCountBound(p, Lines(s.file.value), START, None);
      HealingShortens(s.file.value, l.pos.count);
    }
  }

  lemma HealingShortens(text: string, count: nat)
    requires count < |Lines(text)|
    ensures Healed(text, count) != text
  {
    FirstLinesReadBack(text, count);
    assert |Lines(text)[..count]| == count;
  }

  lemma HealedMeans(p: Primitives, lines: seq<string>, count: nat, es: seq<Fields>, s: LogState)
    requires count <= |lines| && Linked(p, es) && |es| == count
    requires Lines(TextOf(s.file)) == lines[..count] && s.last == HashBefore(p, es, count) && s.count == count
    requires AllObjects(p, lines[..count])
    requires NoBlank(lines[..count]) <==> Entries(p, lines[..count]) == es
    requires !NoBlank(lines[..count]) ==> |Entries(p, lines[..count])| < count
    ensures Consistent(p, s) <==> NoBlank(lines[..count])
  {
    ConsistentMeans(p, s);
  }

  /** A line holding JSON that is not an object makes verification raise, and the log refuse to open. */
  lemma ForeignJsonStopsTheLog(p: Primitives, bodies: seq<Fields>, line: string)
    requires p.Framed() && IssuedChain(p, bodies) && Lines(line) == [line]
    requires !IsBlank(line) && p.dec(Text.Strip(line)).Some? && !IsObject(p, line)
    ensures VerifyIntegrity(p, Some(FileOf(p, bodies) + line), None, None) == Report(false, Exception, None, 0)
    ensures Open(p, Some(FileOf(p, bodies) + line)) == Refused(Exception)
  {
    FileFacts(p, bodies);
    StoredAllLinked(p, bodies);
    LinesJoin(FileOf(p, bodies), line);
    var lines := Lines(FileOf(p, bodies));
    AfterGoodLines(p, lines, line);
    ForeignLineRaises(p, line, PosOf(p, Entries(p, lines), None));
  }

  lemma ForeignLineRaises(p: Primitives, line: string, pos: Pos)
    requires !IsBlank(line) && p.dec(Text.Strip(line)).Some? && !IsObject(p, line)
    ensures Walk(p, [line], pos, None) == Raises
  {
  }

  // ---------------------------------------------------------------- non-interference

  /** The same operations, on records that differ only in values under sensitive keys, at any depth. */
  predicate OpsAgree(a: Op, b: Op) {
    match (a, b)
    case (Write(x, v), Write(y, w)) => v == w && EntriesAgree(x, y)
    case (Crash(x, j), Crash(y, k)) => j == k && EntriesAgree(x, y)
    case (Reopen, Reopen) => true
    case _ => false
  }

  lemma RecordsHidden(p: Primitives, x: seq<Item>, y: seq<Item>)
    requires EntriesAgree(x, y)
    ensures RecordFields(p, x) == RecordFields(p, y)
  {
    EntriesHidden(p.scrub, PDict(x), x, y);
  }

  /** Non-interference over whole runs: secrets under sensitive keys never reach the file, the hashes, the MACs,
      the head or the answers, whatever fails or crashes on the way. */
  lemma {:induction false} SecretsNeverReachTheLog(p: Primitives, s: LogState, a: seq<Op>, b: seq<Op>)
    requires |a| == |b| && forall i | 0 <= i < |a| :: OpsAgree(a[i], b[i])
    ensures Run(p, s, a) == Run(p, s, b)
  {
    if a != [] {
      var n := |a| - 1;
      SecretsNeverReachTheLog(p, s, a[..n], b[..n]);
      assert OpsAgree(a[n], b[n]);
      if !a[n].Reopen? {
        RecordsHidden(p, a[n].record, b[n].record);
      }
    }
  }
}
