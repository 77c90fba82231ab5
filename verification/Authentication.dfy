/** Replay protection and authentication, axiomgate_kernel/authentication.py. Times are integers in
    microseconds; every call carries the clock reading it makes. */
module Authentication {
  import opened Domain
  import opened JsonValues
  import opened Digests
  import Text

  const SECOND := 1_000_000
  const SKEW := 5 * SECOND

  /** What datetime.fromisoformat makes of a string: an error, a naive value, or an instant. */
  datatype Instant = Malformed | Naive | At(t: int)

  /** One remembered nonce with the timestamp its request carried. */
  datatype Mark = Mark(nonce: string, t: int)

  /** Per-principal ordered dictionaries, oldest insertion first. */
  type Seen = map<string, seq<Mark>>

  datatype Limits = Limits(max: int, ttl: int, iso: string -> Instant)
  {
    /** The instant a raw timestamp field stands for, when the tracker accepts its form. */
    function InstantOf(stamp: Json): Option<int> {
      if !stamp.NonEmptyString() then None
      else if iso(stamp.s).At? then Some(iso(stamp.s).t) else None
    }

    predicate InWindow(t: int, now: int) {
      now - t <= ttl && t <= now + SKEW
    }

    predicate Expired(m: Mark, now: int) {
      now - m.t > ttl
    }
  }

  predicate Known(marks: seq<Mark>, nonce: string) {
    exists i :: 0 <= i < |marks| && marks[i].nonce == nonce
  }

  function MarksOf(seen: Seen, principal: string): seq<Mark> {
    if principal in seen then seen[principal] else []
  }

  /** At capacity, expired entries leave in insertion order until there is room or a live one blocks. */
  function Evicted(l: Limits, marks: seq<Mark>, now: int): seq<Mark> {
    if marks != [] && |marks| >= l.max && l.Expired(marks[0], now) then Evicted(l, marks[1..], now) else marks
  }

  /** The call gets as far as the locked section. */
  predicate Admissible(l: Limits, principal: Json, nonce: Json, stamp: Json, now: int) {
    && l.max > 0 && principal.NonEmptyString() && nonce.NonEmptyString()
    && l.InstantOf(stamp).Some? && l.InWindow(l.InstantOf(stamp).value, now)
  }

  function Consumed(l: Limits, marks: seq<Mark>, nonce: string, t: int, now: int): (r: (seq<Mark>, bool)) {
    if Known(marks, nonce) then (marks, false)
    else
      var kept := Evicted(l, marks, now);
      if |kept| >= l.max then (kept, false) else (kept + [Mark(nonce, t)], true)
  }

  function Consume(l: Limits, seen: Seen, principal: Json, nonce: Json, stamp: Json, now: int): (r: (Seen, bool)) {
    if !Admissible(l, principal, nonce, stamp, now) then (seen, false)
    else
      var (marks, ok) := Consumed(l, MarksOf(seen, principal.s), nonce.s, l.InstantOf(stamp).value, now);
      (seen[principal.s := marks], ok)
  }

  class NonceTracker {
    const limits: Limits
    var seen: Seen

    constructor (limits: Limits)
      ensures this.limits == limits && seen == map[]
    {
      this.limits := limits;
      seen := map[];
    }

    method TryConsume(principal: Json, nonce: Json, stamp: Json, now: int) returns (ok: bool)
      modifies this
      ensures (seen, ok) == Consume(limits, old(seen), principal, nonce, stamp, now)
    {
      if limits.max <= 0 { return false; }
      if !principal.NonEmptyString() { return false; }
      if !nonce.NonEmptyString() { return false; }
      if !stamp.NonEmptyString() { return false; }
      var parsed := limits.iso(stamp.s);
      if parsed.Malformed? { return false; }
      if parsed.Naive? { return false; }
      var t := parsed.t;
      if now - t > limits.ttl { return false; }
      if t > now + SKEW { return false; }

      if principal.s !in seen {
        seen := seen[principal.s := []];
      }
      var marks := seen[principal.s];
      ghost var before := marks;
      assert seen == old(seen)[principal.s := marks];
      var known := false;
      for i := 0 to |marks|
        invariant known <==> Known(marks[..i], nonce.s)
      {
        if marks[i].nonce == nonce.s { known := true; }
      }
      assert marks[..|marks|] == marks;
      if known { return false; }
      while |marks| >= limits.max
        invariant seen == old(seen)[principal.s := marks]
        invariant Evicted(limits, marks, now) == Evicted(limits, before, now)
        decreases |marks|
      {
        if limits.Expired(marks[0], now) {
          marks := marks[1..];
          seen := seen[principal.s := marks];
        } else {
          return false;
        }
      }
      seen := seen[principal.s := marks + [Mark(nonce.s, t)]];
      assert seen == old(seen)[principal.s := marks + [Mark(nonce.s, t)]];
      return true;
    }
  }

  // ---------------------------------------------------------------- runs of the tracker

  datatype Call = Call(principal: Json, nonce: Json, stamp: Json, now: int)

  predicate ClockForward(calls: seq<Call>) {
    forall i, j :: 0 <= i < j < |calls| ==> calls[i].now <= calls[j].now
  }

  /** The tracker's dictionaries before call n. */
  function Before(l: Limits, calls: seq<Call>, n: nat): Seen
    requires n <= |calls|
  {
    if n == 0 then map[]
    else var c := calls[n - 1]; Consume(l, Before(l, calls, n - 1), c.principal, c.nonce, c.stamp, c.now).0
  }

  predicate Accepted(l: Limits, calls: seq<Call>, n: nat)
    requires n < |calls|
  {
    var c := calls[n];
    Consume(l, Before(l, calls, n), c.principal, c.nonce, c.stamp, c.now).1
  }

  /** An accepted nonce is either still in its dictionary, or its timestamp is already out of the window. */
  predicate Remembered(l: Limits, seen: Seen, principal: string, m: Mark, now: int) {
    m in MarksOf(seen, principal) || l.Expired(m, now)
  }

  lemma {:induction false} EvictionForgetsOnlyExpired(l: Limits, marks: seq<Mark>, now: int, m: Mark)
    requires m in marks
    ensures m in Evicted(l, marks, now) || l.Expired(m, now)
  {
    if marks != [] && |marks| >= l.max && l.Expired(marks[0], now) {
      if m != marks[0] {
        EvictionForgetsOnlyExpired(l, marks[1..], now, m);
      }
    }
  }

  lemma {:induction false} EvictionSuffix(l: Limits, marks: seq<Mark>, now: int)
    ensures var kept := Evicted(l, marks, now);
            |kept| <= |marks| && kept == marks[|marks| - |kept|..]
  {
    if marks != [] && |marks| >= l.max && l.Expired(marks[0], now) {
      EvictionSuffix(l, marks[1..], now);
    }
  }

  lemma RememberedLater(l: Limits, seen: Seen, c: Call, principal: string, m: Mark, now: int)
    requires Remembered(l, seen, principal, m, now) && now <= c.now
    ensures Remembered(l, Consume(l, seen, c.principal, c.nonce, c.stamp, c.now).0, principal, m, c.now)
  {
    if m in MarksOf(seen, principal) && Admissible(l, c.principal, c.nonce, c.stamp, c.now) && c.principal.s == principal {
      EvictionForgetsOnlyExpired(l, MarksOf(seen, principal), c.now, m);
    }
  }

  lemma {:induction false} RememberedUntil(l: Limits, calls: seq<Call>, i: nat, j: nat)
    requires ClockForward(calls) && i < j <= |calls| && Accepted(l, calls, i)
    ensures var c := calls[i];
            Remembered(l, Before(l, calls, j), c.principal.s, Mark(c.nonce.s, l.InstantOf(c.stamp).value), calls[j - 1].now)
    decreases j
  {
    if j > i + 1 {
      var c := calls[i];
      RememberedUntil(l, calls, i, j - 1);
      RememberedLater(l, Before(l, calls, j - 1), calls[j - 1], c.principal.s,
                      Mark(c.nonce.s, l.InstantOf(c.stamp).value), calls[j - 2].now);
    }
  }

  /** Under a clock that never steps back, a principal's nonce is accepted a second time only after the first
      acceptance's own timestamp has left the TTL window. */
  lemma NonceReusedOnlyAfterExpiry(l: Limits, calls: seq<Call>, i: nat, j: nat)
    requires ClockForward(calls) && i < j < |calls| && Accepted(l, calls, i) && Accepted(l, calls, j)
    requires calls[i].principal == calls[j].principal && calls[i].nonce == calls[j].nonce
    ensures calls[j].now - l.InstantOf(calls[i].stamp).value > l.ttl
  {
    RememberedUntil(l, calls, i, j);
    var m := Mark(calls[i].nonce.s, l.InstantOf(calls[i].stamp).value);
    assert m !in MarksOf(Before(l, calls, j), calls[j].principal.s);
  }

  /** So one (principal, nonce, timestamp) is accepted at most once, however long the run and whatever was evicted. */
  lemma TripleAcceptedOnce(l: Limits, calls: seq<Call>, i: nat, j: nat)
    requires ClockForward(calls) && i < j < |calls| && Accepted(l, calls, i) && Accepted(l, calls, j)
    ensures !(calls[i].principal == calls[j].principal && calls[i].nonce == calls[j].nonce && calls[i].stamp == calls[j].stamp)
  {
    if calls[i].principal == calls[j].principal && calls[i].nonce == calls[j].nonce && calls[i].stamp == calls[j].stamp {
      NonceReusedOnlyAfterExpiry(l, calls, i, j);
    }
  }

  ghost predicate WithinCapacity(l: Limits, seen: Seen) {
    forall p | p in seen :: |seen[p]| <= l.max
  }

  /** No principal's dictionary ever holds more than the configured number of nonces. */
  lemma {:induction false} NeverOverCapacity(l: Limits, calls: seq<Call>, n: nat)
    requires n <= |calls|
    ensures WithinCapacity(l, Before(l, calls, n))
  {
    if n > 0 {
      NeverOverCapacity(l, calls, n - 1);
      var seen, c := Before(l, calls, n - 1), calls[n - 1];
      if c.principal.JStr? {
        EvictionSuffix(l, MarksOf(seen, c.principal.s), c.now);
      }
    }
  }

  /** Exactly when a call is accepted: admissible, an unknown nonce, and room -- or an expired OLDEST entry.
      An expired entry behind a live one does not make room. */
  lemma AcceptedExactlyWhen(l: Limits, calls: seq<Call>, n: nat)
    requires n < |calls|
    ensures Accepted(l, calls, n) <==>
            var c := calls[n];
            && Admissible(l, c.principal, c.nonce, c.stamp, c.now)
            && var marks := MarksOf(Before(l, calls, n), c.principal.s);
               !Known(marks, c.nonce.s) && (|marks| < l.max || l.Expired(marks[0], c.now))
  {
    NeverOverCapacity(l, calls, n);
    var c := calls[n];
    if Admissible(l, c.principal, c.nonce, c.stamp, c.now) {
      var marks := MarksOf(Before(l, calls, n), c.principal.s);
      if |marks| >= l.max && l.Expired(marks[0], c.now) {
        EvictionSuffix(l, marks[1..], c.now);
      }
    }
  }

  /** A request reaches the locked section exactly when the tracker holds anything at all, all three fields are
      non-empty strings, and the timestamp is an instant at most ttl old and at most five seconds ahead. */
  lemma AdmissibleExactlyWhen(l: Limits, principal: Json, nonce: Json, stamp: Json, now: int)
    ensures Admissible(l, principal, nonce, stamp, now) <==>
            && l.max > 0 && principal.JStr? && principal.s != "" && nonce.JStr? && nonce.s != "" && stamp.JStr? && stamp.s != ""
            && exists t :: l.iso(stamp.s) == At(t) && now - t <= l.ttl && t <= now + 5_000_000
  {
  }

  /** The dictionary of one principal after an attempt: entries leave from the front, only at capacity and only expired
      ones, and an accepted nonce goes to the end. The other principals keep theirs, and a refused form changes nothing. */
  lemma ConsumeTakesEffect(l: Limits, seen: Seen, principal: Json, nonce: Json, stamp: Json, now: int, other: string)
    ensures var (after, ok) := Consume(l, seen, principal, nonce, stamp, now);
            && (!Admissible(l, principal, nonce, stamp, now) ==> after == seen && !ok)
            && (principal != JStr(other) ==> MarksOf(after, other) == MarksOf(seen, other))
            && (ok ==>
                  && principal.JStr? && nonce.JStr? && stamp.JStr? && l.iso(stamp.s).At?
                  && exists n: nat :: Dropped(l, MarksOf(seen, principal.s), n, now)
                                      && MarksOf(after, principal.s) == MarksOf(seen, principal.s)[n..] + [Mark(nonce.s, l.iso(stamp.s).t)])
            && (Admissible(l, principal, nonce, stamp, now) && !ok ==>
                  exists n: nat :: Dropped(l, MarksOf(seen, principal.s), n, now)
                                   && MarksOf(after, principal.s) == MarksOf(seen, principal.s)[n..])
  {
    if Admissible(l, principal, nonce, stamp, now) {
      var marks := MarksOf(seen, principal.s);
      EvictionDrops(l, marks, now);
      assert Dropped(l, marks, 0, now) && marks[0..] == marks;
    }
  }

  /** The first n entries have expired, and the last of them was at capacity when it left. */
  predicate Dropped(l: Limits, marks: seq<Mark>, n: nat, now: int) {
    n <= |marks| && (forall i | 0 <= i < n :: now - marks[i].t > l.ttl) && (n > 0 ==> |marks| - n + 1 >= l.max)
  }

  lemma {:induction false} EvictionDrops(l: Limits, marks: seq<Mark>, now: int)
    ensures exists n: nat :: Dropped(l, marks, n, now) && Evicted(l, marks, now) == marks[n..]
  {
    if marks != [] && |marks| >= l.max && l.Expired(marks[0], now) {
      EvictionDrops(l, marks[1..], now);
      var n: nat :| Dropped(l, marks[1..], n, now) && Evicted(l, marks[1..], now) == marks[1..][n..];
      forall i | 0 <= i < n + 1 ensures now - marks[i].t > l.ttl {
        if i > 0 { assert marks[1..][i - 1] == marks[i]; }
      }
      assert Dropped(l, marks, n + 1, now) && marks[1..][n..] == marks[n + 1..];
    } else {
      assert Dropped(l, marks, 0, now) && marks[0..] == marks;
    }
  }

  lemma AcceptStep(l: Limits, calls: seq<Call>, n: nat, marks: seq<Mark>, marks': seq<Mark>)
    requires n < |calls|
    requires Admissible(l, calls[n].principal, calls[n].nonce, calls[n].stamp, calls[n].now)
    requires MarksOf(Before(l, calls, n), calls[n].principal.s) == marks
    requires Consumed(l, marks, calls[n].nonce.s, l.InstantOf(calls[n].stamp).value, calls[n].now) == (marks', true)
    ensures Accepted(l, calls, n) && MarksOf(Before(l, calls, n + 1), calls[n].principal.s) == marks'
  {
  }

  /** A full dictionary whose oldest entry has expired makes room by dropping exactly that entry. */
  lemma EvictOldest(l: Limits, x: Mark, rest: seq<Mark>, nonce: string, t: int, now: int)
    requires l.max == |rest| + 1 && l.Expired(x, now) && !Known([x] + rest, nonce)
    ensures Consumed(l, [x] + rest, nonce, t, now) == (rest + [Mark(nonce, t)], true)
  {
    var marks := [x] + rest;
    assert marks[1..] == rest;
    assert Evicted(l, rest, now) == rest;
    assert Evicted(l, marks, now) == rest;
  }

  // ---------------------------------------------------------------- what a replay takes

  /** The two calls carry the same principal, nonce and timestamp. */
  predicate SameTriple(a: Call, b: Call) {
    a.principal == b.principal && a.nonce == b.nonce && a.stamp == b.stamp
  }

  function MarkOf(l: Limits, c: Call): Mark
    requires c.nonce.JStr? && l.InstantOf(c.stamp).Some?
  {
    Mark(c.nonce.s, l.InstantOf(c.stamp).value)
  }

  /** Some call of this principal from i to before j is made when the mark has expired. */
  predicate SomeCallAfterExpiry(l: Limits, calls: seq<Call>, i: nat, j: nat, principal: Json, m: Mark)
    requires j <= |calls|
  {
    exists n :: i < n < j && calls[n].principal == principal && l.Expired(m, calls[n].now)
  }

  lemma KeptUnlessExpired(l: Limits, seen: Seen, c: Call, principal: string, m: Mark)
    requires m in MarksOf(seen, principal)
    ensures m in MarksOf(Consume(l, seen, c.principal, c.nonce, c.stamp, c.now).0, principal)
            || (c.principal == JStr(principal) && l.Expired(m, c.now))
  {
    if Admissible(l, c.principal, c.nonce, c.stamp, c.now) && c.principal.s == principal {
      EvictionForgetsOnlyExpired(l, MarksOf(seen, principal), c.now, m);
    }
  }

  /** Whatever the clock does: an accepted mark stays until a call of its principal is made when it has expired. */
  lemma {:induction false} KeptUntilExpiry(l: Limits, calls: seq<Call>, i: nat, j: nat)
    requires i < j <= |calls| && Accepted(l, calls, i)
    requires !SomeCallAfterExpiry(l, calls, i, j, calls[i].principal, MarkOf(l, calls[i]))
    ensures MarkOf(l, calls[i]) in MarksOf(Before(l, calls, j), calls[i].principal.s)
    decreases j
  {
    if j > i + 1 {
      KeptUntilExpiry(l, calls, i, j - 1);
      KeptUnlessExpired(l, Before(l, calls, j - 1), calls[j - 1], calls[i].principal.s, MarkOf(l, calls[i]));
    }
  }

  /** Whatever the clock does: a triple is accepted twice only if, in between, a call of the same principal was made
      when its timestamp had expired, while the second acceptance reads a clock at which it has not: the clock stepped
      back from the one to the other, past the expiry. */
  lemma ReplayNeedsStepBack(l: Limits, calls: seq<Call>, i: nat, j: nat) returns (n: nat)
    requires i < j < |calls| && Accepted(l, calls, i) && Accepted(l, calls, j) && SameTriple(calls[i], calls[j])
    ensures i < n < j && calls[n].principal == calls[i].principal
    ensures l.Expired(MarkOf(l, calls[i]), calls[n].now) && l.InWindow(MarkOf(l, calls[i]).t, calls[j].now)
    ensures calls[j].now < calls[n].now
  {
    var m := MarkOf(l, calls[i]);
    if !SomeCallAfterExpiry(l, calls, i, j, calls[i].principal, m) {
      KeptUntilExpiry(l, calls, i, j);
      assert false;
    }
    n :| i < n < j && calls[n].principal == calls[i].principal && l.Expired(m, calls[n].now);
  }

  /** Clock readings with which a triple of timestamp t can be replayed: accepted at x, forgotten at y, and fresh
      again at z. */
  predicate ReplayableAt(l: Limits, t: int, x: int, y: int, z: int) {
    l.InWindow(t, x) && y - t > l.ttl && l.InWindow(t, z)
  }

  /** A run that accepts a triple of timestamp t at clock x and again at z, with a call of the principal at y between. */
  predicate Replays(l: Limits, calls: seq<Call>, i: nat, n: nat, j: nat, t: int, x: int, y: int, z: int) {
    && i < n < j < |calls| && Accepted(l, calls, i) && Accepted(l, calls, j) && SameTriple(calls[i], calls[j])
    && calls[n].principal == calls[i].principal && l.InstantOf(calls[i].stamp) == Some(t)
    && calls[i].now == x && calls[n].now == y && calls[j].now == z && l.Expired(MarkOf(l, calls[i]), y)
  }

  /** Nonces of fillers: pairwise different, and none of them "A" or "C". */
  function Filler(k: nat): string {
    seq(k + 1, i => 'B')
  }

  function FillerMarks(k: nat, t: int): (marks: seq<Mark>)
    ensures |marks| == k
    ensures forall i | 0 <= i < k :: marks[i] == Mark(Filler(i), t)
  {
    if k == 0 then [] else FillerMarks(k - 1, t) + [Mark(Filler(k - 1), t)]
  }

  function FillerCalls(k: nat, stamp: string, now: int): (calls: seq<Call>)
    ensures |calls| == k
    ensures forall i | 0 <= i < k :: calls[i] == Call(JStr("p"), JStr(Filler(i)), JStr(stamp), now)
  {
    if k == 0 then [] else FillerCalls(k - 1, stamp, now) + [Call(JStr("p"), JStr(Filler(k - 1)), JStr(stamp), now)]
  }

  lemma FillersUnknown(t: int, first: Mark, k: nat)
    requires first.nonce == "A"
    ensures !Known([first] + FillerMarks(k, t), Filler(k)) && !Known([first] + FillerMarks(k, t), "C")
    ensures !Known(FillerMarks(k, t), "A")
  {
    var marks := [first] + FillerMarks(k, t);
    forall i | 0 <= i < |marks| ensures marks[i].nonce != Filler(k) && marks[i].nonce != "C" {
      assert Filler(k)[0] == 'B';
      if i > 0 { assert |Filler(i - 1)| == i && Filler(i - 1)[0] == 'B'; }
    }
    forall i | 0 <= i < k ensures FillerMarks(k, t)[i].nonce != "A" {
      assert Filler(i)[0] == 'B';
    }
  }

  /** The replaying run: the triple at x, enough fillers about to expire to fill the dictionary, a newcomer at y that
      drops the triple, and the triple again at z, which drops the first filler. */
  function ReplayRun(max: nat, a: string, b: string, c: string, x: int, y: int, z: int): seq<Call>
    requires max >= 2
  {
    [Call(JStr("p"), JStr("A"), JStr(a), x)] + FillerCalls(max - 1, b, z - 1)
      + [Call(JStr("p"), JStr("C"), JStr(c), y), Call(JStr("p"), JStr("A"), JStr(a), z)]
  }

  /** The run starts with the triple and goes on with fillers. */
  predicate FillsUp(calls: seq<Call>, max: nat, a: string, b: string, x: int, w: int) {
    && 1 <= max <= |calls| && calls[0] == Call(JStr("p"), JStr("A"), JStr(a), x)
    && forall i | 1 <= i < max :: calls[i] == Call(JStr("p"), JStr(Filler(i - 1)), JStr(b), w)
  }

  lemma ReplayRunParts(max: nat, a: string, b: string, c: string, x: int, y: int, z: int)
    requires max >= 2
    ensures Staged(ReplayRun(max, a, b, c, x, y, z), max, a, b, c, x, y, z)
  {
  }

  /** One filler more, while there is room. */
  lemma FillerTaken(l: Limits, calls: seq<Call>, n: nat, marks: seq<Mark>, nonce: string, stamp: string, t: int)
    requires n < |calls| && calls[n] == Call(JStr("p"), JStr(nonce), JStr(stamp), calls[n].now) && nonce != "" && stamp != ""
    requires l.max > |marks| && l.iso(stamp) == At(t) && l.InWindow(t, calls[n].now)
    requires MarksOf(Before(l, calls, n), "p") == marks && !Known(marks, nonce)
    ensures Accepted(l, calls, n) && MarksOf(Before(l, calls, n + 1), "p") == marks + [Mark(nonce, t)]
  {
    assert Evicted(l, marks, calls[n].now) == marks;
    AcceptStep(l, calls, n, marks, marks + [Mark(nonce, t)]);
  }

  /** After the triple and k fillers the dictionary holds exactly these. */
  lemma {:induction false} DictionaryFills(l: Limits, calls: seq<Call>, a: string, b: string, t: int, u: int, x: int, w: int, k: nat)
    requires 1 <= l.max && FillsUp(calls, l.max, a, b, x, w) && a != "" && b != "" && k < l.max
    requires l.iso(a) == At(t) && l.iso(b) == At(u) && l.InWindow(t, x) && l.InWindow(u, w)
    ensures MarksOf(Before(l, calls, k + 1), "p") == [Mark("A", t)] + FillerMarks(k, u) && Accepted(l, calls, 0)
  {
    if k == 0 {
      FillerTaken(l, calls, 0, [], "A", a, t);
      assert [] + [Mark("A", t)] == [Mark("A", t)] && [Mark("A", t)] + [] == [Mark("A", t)];
    } else {
      DictionaryFills(l, calls, a, b, t, u, x, w, k - 1);
      FillersUnknown(u, Mark("A", t), k - 1);
      FillerTaken(l, calls, k, [Mark("A", t)] + FillerMarks(k - 1, u), Filler(k - 1), b, u);
      ConcatThree([Mark("A", t)], FillerMarks(k - 1, u), [Mark(Filler(k - 1), u)]);
    }
  }

  lemma ConcatThree(x: seq<Mark>, y: seq<Mark>, z: seq<Mark>)
    ensures (x + y) + z == x + (y + z)
  {
  }

  /** A call on a full dictionary whose oldest entry has expired. */
  lemma TakesOldestsPlace(l: Limits, calls: seq<Call>, n: nat, oldest: Mark, rest: seq<Mark>, nonce: string, stamp: string, t: int)
    requires n < |calls| && calls[n] == Call(JStr("p"), JStr(nonce), JStr(stamp), calls[n].now) && nonce != "" && stamp != ""
    requires l.max == |rest| + 1 && l.iso(stamp) == At(t) && l.InWindow(t, calls[n].now) && l.Expired(oldest, calls[n].now)
    requires MarksOf(Before(l, calls, n), "p") == [oldest] + rest && !Known([oldest] + rest, nonce)
    ensures Accepted(l, calls, n) && MarksOf(Before(l, calls, n + 1), "p") == rest + [Mark(nonce, t)]
  {
    EvictOldest(l, oldest, rest, nonce, t, calls[n].now);
    AcceptStep(l, calls, n, [oldest] + rest, rest + [Mark(nonce, t)]);
  }

  lemma SecondRound(fillers: seq<Mark>, m: Mark)
    requires fillers != [] && !Known(fillers, "A") && m.nonce == "C"
    ensures fillers + [m] == [fillers[0]] + (fillers[1..] + [m]) && !Known(fillers + [m], "A")
  {
    var all := fillers + [m];
    forall i | 0 <= i < |all| ensures all[i].nonce != "A" {
      if i < |fillers| { assert fillers[i].nonce != "A"; }
    }
  }

  /** The triple again, once the dictionary is full of fillers and the newcomer, and the first filler has expired. */
  lemma TripleReturns(l: Limits, calls: seq<Call>, n: nat, fillers: seq<Mark>, m: Mark, stamp: string, t: int)
    requires n < |calls| && calls[n] == Call(JStr("p"), JStr("A"), JStr(stamp), calls[n].now) && stamp != ""
    requires l.max == |fillers| + 1 && l.iso(stamp) == At(t) && l.InWindow(t, calls[n].now)
    requires fillers != [] && l.Expired(fillers[0], calls[n].now) && !Known(fillers, "A") && m.nonce == "C"
    requires MarksOf(Before(l, calls, n), "p") == fillers + [m]
    ensures Accepted(l, calls, n)
  {
    SecondRound(fillers, m);
    TakesOldestsPlace(l, calls, n, fillers[0], fillers[1..] + [m], "A", stamp, t);
  }

  /** The four kinds of call in their places. */
  predicate Staged(calls: seq<Call>, max: nat, a: string, b: string, c: string, x: int, y: int, z: int) {
    && |calls| == max + 2 && FillsUp(calls, max, a, b, x, z - 1)
    && calls[max] == Call(JStr("p"), JStr("C"), JStr(c), y)
    && calls[max + 1] == Call(JStr("p"), JStr("A"), JStr(a), z)
  }

  /** With the triple and the fillers in a full dictionary, the newcomer takes the place of the triple, and the triple
      then that of the first filler. */
  lemma NewcomerAndReturn(l: Limits, calls: seq<Call>, n: nat, a: string, c: string, fillers: seq<Mark>, t: int, u: int)
    requires n + 1 < |calls| && l.max == |fillers| + 1 && fillers != [] && a != "" && c != ""
    requires calls[n] == Call(JStr("p"), JStr("C"), JStr(c), calls[n].now)
    requires calls[n + 1] == Call(JStr("p"), JStr("A"), JStr(a), calls[n + 1].now)
    requires l.iso(a) == At(t) && l.iso(c) == At(u) && l.InWindow(u, calls[n].now) && l.InWindow(t, calls[n + 1].now)
    requires l.Expired(Mark("A", t), calls[n].now) && l.Expired(fillers[0], calls[n + 1].now)
    requires MarksOf(Before(l, calls, n), "p") == [Mark("A", t)] + fillers
    requires !Known([Mark("A", t)] + fillers, "C") && !Known(fillers, "A")
    ensures Accepted(l, calls, n + 1)
  {
    TakesOldestsPlace(l, calls, n, Mark("A", t), fillers, "C", c, u);
    TripleReturns(l, calls, n + 1, fillers, Mark("C", u), a, t);
  }

  lemma StagedReplays(l: Limits, calls: seq<Call>, a: string, b: string, c: string, t: int, x: int, y: int, z: int)
    requires l.max >= 2 && a != "" && b != "" && c != "" && ReplayableAt(l, t, x, y, z) && Staged(calls, l.max, a, b, c, x, y, z)
    requires l.iso(a) == At(t) && l.iso(b) == At(z - 1 - l.ttl) && l.iso(c) == At(y - l.ttl)
    ensures Accepted(l, calls, 0) && Accepted(l, calls, l.max + 1)
  {
    var u := z - 1 - l.ttl;
    var fillers := FillerMarks(l.max - 1, u);
    DictionaryFills(l, calls, a, b, t, u, x, z - 1, l.max - 1);
    FillersUnknown(u, Mark("A", t), l.max - 1);
    NewcomerAndReturn(l, calls, l.max, a, c, fillers, t, y - l.ttl);
  }

  /** The converse, with room for at least two nonces: whatever three readings would allow a replay, some run replays. */
  lemma ClockStepBackReplays(l: Limits, a: string, b: string, c: string, t: int, x: int, y: int, z: int) returns (calls: seq<Call>)
    requires l.max >= 2 && a != "" && b != "" && c != "" && ReplayableAt(l, t, x, y, z)
    requires l.iso(a) == At(t) && l.iso(b) == At(z - 1 - l.ttl) && l.iso(c) == At(y - l.ttl)
    ensures Replays(l, calls, 0, l.max, l.max + 1, t, x, y, z)
  {
    calls := ReplayRun(l.max, a, b, c, x, y, z);
    ReplayRunParts(l.max, a, b, c, x, y, z);
    StagedReplays(l, calls, a, b, c, t, x, y, z);
  }

  /** With room for one nonce, what is remembered only ever gets younger. */
  lemma {:induction false} OneRoomGetsYounger(l: Limits, calls: seq<Call>, i: nat, j: nat)
    requires l.max == 1 && i < j <= |calls| && Accepted(l, calls, i)
    ensures var marks, m := MarksOf(Before(l, calls, j), calls[i].principal.s), MarkOf(l, calls[i]);
            |marks| == 1 && (marks[0] == m || m.t < marks[0].t)
    decreases j
  {
    if j == i + 1 {
      NeverOverCapacity(l, calls, i);
      OneRoomTakes(l, MarksOf(Before(l, calls, i), calls[i].principal.s), calls[i]);
    } else {
      OneRoomGetsYounger(l, calls, i, j - 1);
      OneRoomStep(l, Before(l, calls, j - 1), calls[j - 1], calls[i].principal.s);
    }
  }

  lemma OneRoomTakes(l: Limits, marks: seq<Mark>, c: Call)
    requires l.max == 1 && |marks| <= 1 && Admissible(l, c.principal, c.nonce, c.stamp, c.now)
    requires Consumed(l, marks, c.nonce.s, MarkOf(l, c).t, c.now).1
    ensures Consumed(l, marks, c.nonce.s, MarkOf(l, c).t, c.now).0 == [MarkOf(l, c)]
    ensures marks != [] ==> l.Expired(marks[0], c.now)
  {
  }

  lemma OneRoomStep(l: Limits, seen: Seen, c: Call, principal: string)
    requires l.max == 1 && |MarksOf(seen, principal)| == 1
    ensures var before, after := MarksOf(seen, principal), MarksOf(Consume(l, seen, c.principal, c.nonce, c.stamp, c.now).0, principal);
            |after| == 1 && (after[0] == before[0] || before[0].t < after[0].t)
  {
    var before := MarksOf(seen, principal);
    assert before[1..] == [] && Evicted(l, [], c.now) == [];
  }

  /** With room for one nonce no triple is ever accepted twice, whatever the clock does. */
  lemma OneRoomNeverReplays(l: Limits, calls: seq<Call>, i: nat, j: nat)
    requires l.max == 1 && i < j < |calls| && Accepted(l, calls, i) && Accepted(l, calls, j)
    ensures !SameTriple(calls[i], calls[j])
  {
    if SameTriple(calls[i], calls[j]) {
      OneRoomGetsYounger(l, calls, i, j);
      OneRoomTakes(l, MarksOf(Before(l, calls, j), calls[j].principal.s), calls[j]);
    }
  }

  /** The timestamp reader can read every instant, as ISO 8601 writes them. */
  ghost predicate ReadsEveryInstant(l: Limits) {
    forall t: int :: exists s: string :: s != "" && l.iso(s) == At(t)
  }

  /** Exactly which clock readings let a triple be replayed, for every capacity. */
  lemma ReplayPossibleExactlyWhen(l: Limits, t: int, x: int, y: int, z: int)
    requires ReadsEveryInstant(l)
    ensures (exists calls, i, n, j :: Replays(l, calls, i, n, j, t, x, y, z)) <==> l.max >= 2 && ReplayableAt(l, t, x, y, z)
  {
    if l.max >= 2 && ReplayableAt(l, t, x, y, z) {
      var a: string :| a != "" && l.iso(a) == At(t);
      var b: string :| b != "" && l.iso(b) == At(z - 1 - l.ttl);
      var c: string :| c != "" && l.iso(c) == At(y - l.ttl);
      var calls := ClockStepBackReplays(l, a, b, c, t, x, y, z);
    }
    if calls, i, n, j :| Replays(l, calls, i, n, j, t, x, y, z) {
      if l.max == 1 { OneRoomNeverReplays(l, calls, i, j); }
    }
  }

  // ---------------------------------------------------------------- the authenticator

  datatype AuthnResult = AuthnResult(ok: bool, principal: Option<string>, rule: string)

  /** Registered keys and the ideal HMAC over the canonical bytes of a field map. */
  datatype KeyRing = KeyRing(keys: map<string, string>, hmac: (string, Fields) -> string)
  {
    /** HMAC under one key never gives two field maps that have canonical bytes the same tag. */
    ghost predicate Ideal() {
      forall k, a, b :: JObj(a).Finite() && JObj(b).Finite() && hmac(k, a) == hmac(k, b) ==> a == b
    }

    predicate Signed(canon: Fields) {
      && Get(canon, "mac").NonEmptyString()
      && Get(canon, "principal_id").JStr? && Get(canon, "principal_id").s in keys
      && hmac(keys[Get(canon, "principal_id").s], canon - {"mac"}) == Get(canon, "mac").s
    }
  }

  /** The verdict once the MAC is known good and the nonce has been tried. */
  function ClaimResult(canon: Fields, consumed: bool): AuthnResult {
    var principal := Get(canon, "principal_id");
    var claim := Get(canon, "agent_id");
    if !principal.JStr? then AuthnResult(false, None, "authn.principal_missing")
    else if !consumed then AuthnResult(false, None, "authn.replay")
    else if !claim.NonEmptyString() then AuthnResult(false, None, "authn.claim_missing")
    else if claim != principal then AuthnResult(false, Some(principal.s), "authn.claim_mismatch")
    else AuthnResult(true, Some(principal.s), "authn.ok")
  }

  /** Stands for the exception of a comparison with a MAC that is not ASCII. */
  const RAISED := "raised"

  function CompareMac(ring: KeyRing, canon: Fields): Comparison
    requires Get(canon, "mac").JStr? && Get(canon, "principal_id").JStr? && Get(canon, "principal_id").s in ring.keys
  {
    HmacEqual(ring.hmac(ring.keys[Get(canon, "principal_id").s], canon - {"mac"}), Get(canon, "mac").s)
  }

  /** The refusals that come before the nonce is spent. */
  function EarlyRefusal(ring: KeyRing, canon: Fields): Option<string> {
    var mac := Get(canon, "mac");
    var principal := Get(canon, "principal_id");
    if mac == JNull || mac == JStr("") then Some("authn.mac_missing")
    else if !mac.JStr? then Some("authn.mac_invalid")
    else if !principal.JStr? || Text.Blank(principal.s) then Some("authn.principal_missing")
    else if principal.s !in ring.keys then Some("authn.unknown_principal")
    else if CompareMac(ring, canon).Raised? then Some(RAISED)
    else if !ring.Signed(canon) then Some("authn.mac_invalid")
    else if !Get(canon, "nonce").NonEmptyString() then Some("authn.nonce_missing")
    else None
  }

  function Authenticate(l: Limits, ring: KeyRing, seen: Seen, canon: Fields, now: int): (r: (Seen, AuthnResult)) {
    var early := EarlyRefusal(ring, canon);
    if early.Some? then (seen, AuthnResult(false, None, early.value))
    else
      var (seen', consumed) := Consume(l, seen, Get(canon, "principal_id"), Get(canon, "nonce"), Get(canon, "timestamp"), now);
      (seen', ClaimResult(canon, consumed))
  }

  class Authenticator {
    const ring: KeyRing
    const nonces: NonceTracker

    constructor (ring: KeyRing, nonces: NonceTracker)
      ensures this.ring == ring && this.nonces == nonces
    {
      this.ring := ring;
      this.nonces := nonces;
    }

    method Check(canon: Fields, now: int) returns (r: AuthnResult)
      modifies nonces
      ensures (nonces.seen, r) == Authenticate(nonces.limits, ring, old(nonces.seen), canon, now)
    {
      var mac := Get(canon, "mac");
      if mac == JNull || mac == JStr("") { return AuthnResult(false, None, "authn.mac_missing"); }
      if !mac.JStr? { return AuthnResult(false, None, "authn.mac_invalid"); }
      var principal := Get(canon, "principal_id");
      if !principal.JStr? || Text.Blank(principal.s) { return AuthnResult(false, None, "authn.principal_missing"); }
      if principal.s !in ring.keys { return AuthnResult(false, None, "authn.unknown_principal"); }
      var expected := ring.hmac(ring.keys[principal.s], canon - {"mac"});
      var compared := HmacEqual(expected, mac.s);
      if compared.Raised? { return AuthnResult(false, None, RAISED); }
      if compared.Differ? { return AuthnResult(false, None, "authn.mac_invalid"); }
      var nonce := Get(canon, "nonce");
      if !nonce.NonEmptyString() { return AuthnResult(false, None, "authn.nonce_missing"); }
      var ok := nonces.TryConsume(principal, nonce, Get(canon, "timestamp"), now);
      if !ok { return AuthnResult(false, None, "authn.replay"); }
      var claim := Get(canon, "agent_id");
      if !claim.NonEmptyString() { return AuthnResult(false, None, "authn.claim_missing"); }
      if claim != principal { return AuthnResult(false, Some(principal.s), "authn.claim_mismatch"); }
      return AuthnResult(true, Some(principal.s), "authn.ok");
    }
  }

  // ---------------------------------------------------------------- runs of the authenticator

  datatype Request = Request(canon: Fields, now: int)

  function SeenBefore(l: Limits, ring: KeyRing, reqs: seq<Request>, n: nat): Seen
    requires n <= |reqs|
  {
    if n == 0 then map[] else Authenticate(l, ring, SeenBefore(l, ring, reqs, n - 1), reqs[n - 1].canon, reqs[n - 1].now).0
  }

  function ResultAt(l: Limits, ring: KeyRing, reqs: seq<Request>, n: nat): AuthnResult
    requires n < |reqs|
  {
    Authenticate(l, ring, SeenBefore(l, ring, reqs, n), reqs[n].canon, reqs[n].now).1
  }

  /** The request carries the MAC of its own content under the key registered for its principal. */
  predicate Vouched(ring: KeyRing, canon: Fields) {
    && Get(canon, "principal_id").JStr? && !Text.Blank(Get(canon, "principal_id").s) && Get(canon, "principal_id").s in ring.keys
    && Get(canon, "mac").JStr? && Get(canon, "mac").s != ""
    && Get(canon, "mac").s == ring.hmac(ring.keys[Get(canon, "principal_id").s], canon - {"mac"})
  }

  /** Its nonce is new to its principal, who has room for it or an expired oldest entry. */
  predicate Fresh(l: Limits, seen: Seen, canon: Fields, now: int) {
    && Get(canon, "principal_id").JStr? && Get(canon, "nonce").JStr? && Get(canon, "nonce").s != "" && l.max > 0
    && var marks := MarksOf(seen, Get(canon, "principal_id").s);
       && (forall i | 0 <= i < |marks| :: marks[i].nonce != Get(canon, "nonce").s)
       && (|marks| < l.max || now - marks[0].t > l.ttl)
  }

  /** Its timestamp is an instant at most ttl old and at most five seconds ahead. */
  predicate Timely(l: Limits, canon: Fields, now: int) {
    Get(canon, "timestamp").JStr? && Get(canon, "timestamp").s != "" &&
    exists t :: l.iso(Get(canon, "timestamp").s) == At(t) && now - t <= l.ttl && t <= now + 5_000_000
  }

  /** Exactly when a request is authenticated: vouched for by its MAC, fresh, timely, and claiming to be its own
      principal; and then as that principal. Any other answer but a mismatched claim names none. */
  lemma AuthenticatedExactlyWhen(l: Limits, ring: KeyRing, seen: Seen, canon: Fields, now: int)
    requires WithinCapacity(l, seen)
    ensures var r := Authenticate(l, ring, seen, canon, now).1;
            && (r.ok <==> Vouched(ring, canon) && Fresh(l, seen, canon, now) && Timely(l, canon, now)
                          && Get(canon, "agent_id") == Get(canon, "principal_id"))
            && (r.ok ==> r.principal == Some(Get(canon, "principal_id").s))
            && (!r.ok ==> r.principal.None? || r.rule == "authn.claim_mismatch")
  {
    VouchedExactlyWhen(ring, canon);
    if EarlyRefusal(ring, canon).None? {
      var principal, nonce, stamp := Get(canon, "principal_id"), Get(canon, "nonce"), Get(canon, "timestamp");
      AdmissibleExactlyWhen(l, principal, nonce, stamp, now);
      FreshExactlyWhen(l, MarksOf(seen, principal.s), nonce.s, now);
      assert principal.s != "";
    }
  }

  lemma VouchedExactlyWhen(ring: KeyRing, canon: Fields)
    ensures EarlyRefusal(ring, canon).None? <==> Vouched(ring, canon) && Get(canon, "nonce").JStr? && Get(canon, "nonce").s != ""
  {
  }

  lemma FreshExactlyWhen(l: Limits, marks: seq<Mark>, nonce: string, now: int)
    requires l.max > 0 ==> |marks| <= l.max
    ensures forall t :: l.max > 0 ==>
              (Consumed(l, marks, nonce, t, now).1 <==> !Known(marks, nonce) && (|marks| < l.max || now - marks[0].t > l.ttl))
  {
    if l.max > 0 && |marks| >= l.max && l.Expired(marks[0], now) {
      EvictionSuffix(l, marks[1..], now);
    }
  }

  /** So it is at every point of a run. */
  lemma AuthenticatedThroughout(l: Limits, ring: KeyRing, reqs: seq<Request>, n: nat)
    requires n < |reqs|
    ensures ResultAt(l, ring, reqs, n).ok <==>
            var canon := reqs[n].canon;
            && Vouched(ring, canon) && Fresh(l, SeenBefore(l, ring, reqs, n), canon, reqs[n].now) && Timely(l, canon, reqs[n].now)
            && Get(canon, "agent_id") == Get(canon, "principal_id")
  {
    SameDictionaries(l, ring, reqs, n);
    NeverOverCapacity(l, AsCalls(ring, reqs), n);
    AuthenticatedExactlyWhen(l, ring, SeenBefore(l, ring, reqs, n), reqs[n].canon, reqs[n].now);
  }

  /** A request refused early reaches the tracker as an inadmissible call: it changes nothing. */
  function AsCall(ring: KeyRing, r: Request): Call {
    if EarlyRefusal(ring, r.canon).Some? then Call(JNull, JNull, JNull, r.now)
    else Call(Get(r.canon, "principal_id"), Get(r.canon, "nonce"), Get(r.canon, "timestamp"), r.now)
  }

  function AsCalls(ring: KeyRing, reqs: seq<Request>): seq<Call> {
    seq(|reqs|, i requires 0 <= i < |reqs| => AsCall(ring, reqs[i]))
  }

  lemma {:induction false} SameDictionaries(l: Limits, ring: KeyRing, reqs: seq<Request>, n: nat)
    requires n <= |reqs|
    ensures SeenBefore(l, ring, reqs, n) == Before(l, AsCalls(ring, reqs), n)
  {
    if n > 0 {
      SameDictionaries(l, ring, reqs, n - 1);
    }
  }

  lemma OkMeansConsumed(l: Limits, ring: KeyRing, reqs: seq<Request>, n: nat)
    requires n < |reqs| && ResultAt(l, ring, reqs, n).ok
    ensures EarlyRefusal(ring, reqs[n].canon).None? && ring.Signed(reqs[n].canon)
    ensures Accepted(l, AsCalls(ring, reqs), n)
    ensures Get(reqs[n].canon, "agent_id") == Get(reqs[n].canon, "principal_id")
    ensures ResultAt(l, ring, reqs, n).principal == Some(Get(reqs[n].canon, "principal_id").s)
  {
    SameDictionaries(l, ring, reqs, n);
  }

  /** Under an ideal HMAC and a forward clock, one MAC is accepted for one principal at most once: whoever holds a
      signed request can have it authenticated a single time, and cannot alter any field of it. */
  lemma SignedRequestAcceptedOnce(l: Limits, ring: KeyRing, reqs: seq<Request>, i: nat, j: nat)
    requires ring.Ideal()
    requires forall a, b :: 0 <= a < b < |reqs| ==> reqs[a].now <= reqs[b].now
    requires i < j < |reqs| && ResultAt(l, ring, reqs, i).ok && ResultAt(l, ring, reqs, j).ok
    requires JObj(reqs[i].canon).Finite() && JObj(reqs[j].canon).Finite()
    requires ResultAt(l, ring, reqs, i).principal == ResultAt(l, ring, reqs, j).principal
    ensures Get(reqs[i].canon, "mac") != Get(reqs[j].canon, "mac")
  {
    OkMeansConsumed(l, ring, reqs, i);
    OkMeansConsumed(l, ring, reqs, j);
    if Get(reqs[i].canon, "mac") == Get(reqs[j].canon, "mac") {
      SameMacSameFields(ring, reqs[i].canon, reqs[j].canon);
      assert forall a, b :: 0 <= a < b < |reqs| ==> AsCalls(ring, reqs)[a].now <= AsCalls(ring, reqs)[b].now;
      TripleAcceptedOnce(l, AsCalls(ring, reqs), i, j);
    }
  }

  lemma SameMacSameFields(ring: KeyRing, x: Fields, y: Fields)
    requires ring.Ideal() && JObj(x).Finite() && JObj(y).Finite() && ring.Signed(x) && ring.Signed(y)
    requires Get(x, "mac") == Get(y, "mac") && Get(x, "principal_id") == Get(y, "principal_id")
    ensures Get(x, "nonce") == Get(y, "nonce") && Get(x, "timestamp") == Get(y, "timestamp")
  {
    var a, b := x - {"mac"}, y - {"mac"};
    assert a == b;
    assert Get(x, "nonce") == Get(a, "nonce") && Get(y, "nonce") == Get(b, "nonce");
    assert Get(x, "timestamp") == Get(a, "timestamp") && Get(y, "timestamp") == Get(b, "timestamp");
  }
}
