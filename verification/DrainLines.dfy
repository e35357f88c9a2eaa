/** The drain of one log file, as far as lines go: whatever the sizes, no line is
    lost (drainFile and its flush in internal/pipeline/worker.go). */
module DrainLines {
  import opened Text
  import opened Records
  import opened LogLayout

  /** marker: the chunk to read next. skip: that chunk opens with lines of an
      entry that was already delivered whole. */
  datatype Checkpoint = Checkpoint(marker: nat, skip: bool)

  /** The lines a batch was made of, by position: lo up to but not including hi. */
  datatype Span = Span(lo: nat, hi: nat)

  ghost predicate Covered(spans: seq<Span>, e: nat)
  {
    exists k :: 0 <= k < |spans| && spans[k].lo <= e < spans[k].hi
  }

  /** Every line before position n was delivered. */
  ghost predicate CoveredTo(spans: seq<Span>, n: nat) { forall e :: 0 <= e < n ==> Covered(spans, e) }

  lemma CoveredGrows(spans: seq<Span>, s: Span, n: nat)
    requires CoveredTo(spans, n)
    ensures CoveredTo(spans + [s], n)
    ensures s.lo <= n ==> CoveredTo(spans + [s], s.hi)
  {
    forall e: nat ensures Covered(spans, e) ==> Covered(spans + [s], e)
    {
      if Covered(spans, e) {
        var k :| 0 <= k < |spans| && spans[k].lo <= e < spans[k].hi;
        assert (spans + [s])[k] == spans[k];
      }
    }
    assert (spans + [s])[|spans|] == s;
  }

  /** Position d lies in chunk m, or at its start when there is no chunk m. */
  predicate InChunk(log: seq<string>, m: nat, d: nat)
    requires m <= |log|
  {
    Off(log, m) <= d && if m < |log| then d <= Off(log, m + 1) else d == Off(log, m)
  }

  /** How many lines the first record of a chunk has, if it is a continuation. */
  function LeadLines(p: Parser, chunk: string): nat
  {
    var c := Parse(p, Lines(chunk));
    if c.leading && c.recs != [] then |LinesOf(c.recs[..1])| else 0
  }

  /** The position a drain that starts from ck delivers from. */
  function ResumeLine(p: Parser, log: seq<string>, ck: Checkpoint): (r: nat)
    requires ck.marker <= |log|
    ensures Off(log, ck.marker) <= r
  {
    Off(log, ck.marker) + if ck.skip && ck.marker < |log| then LeadLines(p, log[ck.marker]) else 0
  }

  lemma ResumeInChunk(p: Parser, log: seq<string>, ck: Checkpoint)
    requires ck.marker <= |log|
    ensures InChunk(log, ck.marker, ResumeLine(p, log, ck)) && ResumeLine(p, log, ck) <= |AllLines(log)|
  {
    hide Parse, Lines;
    LinesToPrefix(log, ck.marker, |log|);
    if ck.marker < |log| {
      ChunkLines(log, ck.marker);
      FirstRecordLines(p, log[ck.marker]);
    }
  }

  /** A chunk's lines are those of its first record and those of the others. */
  lemma FirstRecordLines(p: Parser, chunk: string)
    ensures var recs := Parse(p, Lines(chunk)).recs;
      recs != [] ==> Lines(chunk) == LinesOf(recs[..1]) + LinesOf(recs[1..])
    ensures LeadLines(p, chunk) <= |Lines(chunk)|
  {
    hide Parse, Lines;
    var recs := Parse(p, Lines(chunk)).recs;
    ParseKeepsLines(p, chunk);
    if recs != [] {
      assert recs == recs[..1] + recs[1..];
      LinesOfConcatenated(recs[..1], recs[1..]);
    }
  }

  // --------------------------------------------------- taking in one chunk

  /** The records in memory, the chunk the newest began in, and whether that
      chunk opens with lines of an earlier entry. */
  datatype Held = Held(pending: seq<string>, lastStart: nat, lastStartSkip: bool)

  /** What the loop of drainFile does with a pulled chunk. */
  function TakeChunk(h: Held, skipLeading: bool, cur: nat, chunk: Parsed): Held
  {
    if chunk.leading && chunk.recs != [] && skipLeading && h.pending == [] then
      var recs := chunk.recs[1..];
      if recs == [] then h else Held(recs, cur, true)
    else if chunk.leading && chunk.recs != [] && h.pending != []
         && JoinContinuation(Last(h.pending), chunk.recs[0]).Joined? then
      var m := JoinContinuation(Last(h.pending), chunk.recs[0]).message;
      var recs := chunk.recs[1..];
      if recs == [] then h.(pending := Front(h.pending) + [m])
      else Held(Front(h.pending) + [m] + recs, cur, true)
    else if chunk.recs == [] then h
    else Held(h.pending + chunk.recs, cur, false)
  }

  /** How many lines the newest of some records has. */
  function NewestLines(recs: seq<string>): nat { if recs == [] then 0 else |LinesOf([Last(recs)])| }

  lemma NewestIsLast(a: seq<string>, b: seq<string>)
    requires b != []
    ensures NewestLines(a + b) == NewestLines(b) <= |LinesOf(b)|
    ensures |LinesOf(a + b)| == |LinesOf(a)| + |LinesOf(b)|
  {
    assert b == Front(b) + [Last(b)];
    LinesOfConcatenated(Front(b), [Last(b)]);
    LinesOfConcatenated(a, b);
    assert Last(a + b) == Last(b);
  }

  /** `h` holds the lines from position d up to chunk cur, and the newest record
      began in chunk lastStart, behind what a drain that starts there skips. */
  ghost predicate LinesHeld(p: Parser, log: seq<string>, cur: nat, d: nat, h: Held)
    requires cur <= |log|
  {
    LinesToPrefix(log, cur, |log|);
    && d <= Off(log, cur)
    && LinesOf(h.pending) == AllLines(log)[d..Off(log, cur)]
    && (h.pending != [] ==>
          && h.lastStart < cur
          && ResumeLine(p, log, Checkpoint(h.lastStart, h.lastStartSkip)) + NewestLines(h.pending) <= Off(log, cur)
          && Off(log, cur) <= Off(log, h.lastStart + 1) + NewestLines(h.pending))
  }

  /** Taking a chunk in loses no line. */
  lemma TakeKeepsLines(p: Parser, log: seq<string>, cur: nat, d: nat, h: Held)
    requires cur < |log| && LinesHeld(p, log, cur, d, h)
    ensures LinesHeld(p, log, cur + 1, d, TakeChunk(h, false, cur, Parse(p, Lines(log[cur]))))
  {
    hide Parse, Lines, LinesTo;
    var c := Parse(p, Lines(log[cur]));
    ChunkLines(log, cur);
    FirstRecordLines(p, log[cur]);
    assert AllLines(log)[d..Off(log, cur + 1)] == AllLines(log)[d..Off(log, cur)] + Lines(log[cur]);
    if c.recs == [] {
      ParseKeepsLines(p, log[cur]);
    } else if c.leading && h.pending != [] && JoinContinuation(Last(h.pending), c.recs[0]).Joined? {
      TakeJoined(p, log, cur, d, h);
    } else {
      LinesToPrefix(log, cur + 1, |log|);
      ParseKeepsLines(p, log[cur]);
      NewestIsLast(h.pending, c.recs);
      LinesOfConcatenated(h.pending, c.recs);
    }
  }

  lemma TakeJoined(p: Parser, log: seq<string>, cur: nat, d: nat, h: Held)
    requires cur < |log| && LinesHeld(p, log, cur, d, h) && h.pending != []
    requires Off(log, cur) <= Off(log, cur + 1) <= |AllLines(log)|
    requires AllLines(log)[d..Off(log, cur + 1)] == AllLines(log)[d..Off(log, cur)] + Lines(log[cur])
    requires |Lines(log[cur])| == Off(log, cur + 1) - Off(log, cur)
    requires var c := Parse(p, Lines(log[cur]));
      c.leading && c.recs != [] && JoinContinuation(Last(h.pending), c.recs[0]).Joined?
    ensures LinesHeld(p, log, cur + 1, d, TakeChunk(h, false, cur, Parse(p, Lines(log[cur]))))
  {
    hide Parse, Lines, LinesTo, Off, AllLines, NewestLines;
    var c := Parse(p, Lines(log[cur]));
    var m, rest := JoinContinuation(Last(h.pending), c.recs[0]).message, c.recs[1..];
    RejoinKeepsLines(h.pending, c);
    ParseKeepsLines(p, log[cur]);
    FirstRecordLines(p, log[cur]);
    LinesToPrefix(log, cur + 1, |log|);
    assert Rejoin(h.pending, c) == Front(h.pending) + [m] + rest;
    JoinedNewest(h.pending, c.recs, m);
    if rest == [] {
      assert Front(h.pending) + [m] + rest == Front(h.pending) + [m];
    }
  }

  /** The newest record after a join: the joined one, or the newest of the chunk. */
  lemma JoinedNewest(pending: seq<string>, recs: seq<string>, m: string)
    requires pending != [] && recs != [] && m == Last(pending) + [NL] + recs[0]
    ensures var all := Front(pending) + [m] + recs[1..];
      && |LinesOf(recs)| == |LinesOf(recs[..1])| + |LinesOf(recs[1..])|
      && NewestLines(all) == (if recs[1..] == [] then NewestLines(pending) + |LinesOf(recs)| else NewestLines(recs[1..]))
      && NewestLines(recs[1..]) <= |LinesOf(recs[1..])|
  {
    hide Lines;
    var f, rest := Front(pending), recs[1..];
    assert recs == recs[..1] + rest && recs[..1] == [recs[0]];
    LinesOfConcatenated(recs[..1], rest);
    JoinedLines(Last(pending), recs[0]);
    if rest == [] {
      assert f + [m] + rest == f + [m] && pending == f + [Last(pending)];
      NewestIsLast(f, [m]);
    } else {
      NewestIsLast(f + [m], rest);
      NewestIsLast([], rest);
      assert [] + rest == rest;
    }
  }

  lemma JoinedLines(a: string, b: string)
    ensures LinesOf([a + [NL] + b]) == LinesOf([a]) + LinesOf([b])
  {
    hide Lines;
    LinesOfJoined(a, b);
  }

  /** With a skip, exactly the lines of the record that is dropped are passed over. */
  lemma SkipKeepsLines(p: Parser, log: seq<string>, cur: nat, h: Held)
    requires cur < |log| && h.pending == []
    ensures LinesHeld(p, log, cur + 1, ResumeLine(p, log, Checkpoint(cur, true)),
                      TakeChunk(h, true, cur, Parse(p, Lines(log[cur]))))
  {
    hide Parse, Lines, LinesTo;
    var c := Parse(p, Lines(log[cur]));
    ChunkLines(log, cur);
    LinesToPrefix(log, cur + 1, |log|);
    FirstRecordLines(p, log[cur]);
    ParseKeepsLines(p, log[cur]);
    var l, r := AllLines(log), ResumeLine(p, log, Checkpoint(cur, true));
    assert l[r..Off(log, cur + 1)] == Lines(log[cur])[r - Off(log, cur)..];
    if c.recs != [] {
      var rest := if c.leading then c.recs[1..] else c.recs;
      assert [] + c.recs == c.recs;
      if rest != [] {
        NewestIsLast([], rest);
        assert [] + rest == rest;
      }
    }
  }

  // ------------------------------------------------------- during a drain

  /** What holds during a drain with `cur` the next chunk to pull: every line
      before position `front` is delivered, the rest so far is held, and what this
      drain delivered beyond its checkpoint lies in the checkpoint's chunk. */
  ghost predicate LinesMid(p: Parser, log: seq<string>, spans: seq<Span>, prev: Checkpoint,
                           front: nat, h: Held, cur: nat, skipLeading: bool)
  {
    && prev.marker <= cur <= |log|
    && CoveredTo(spans, ResumeLine(p, log, prev))
    && CoveredTo(spans, front)
    && InChunk(log, prev.marker, front) && front <= |AllLines(log)|
    && (h.pending != [] ==> prev.marker <= h.lastStart)
    && if skipLeading then h.pending == [] && prev == Checkpoint(cur, true) && front == ResumeLine(p, log, prev)
       else LinesHeld(p, log, cur, front, h)
  }

  lemma LinesStart(p: Parser, log: seq<string>, spans: seq<Span>, ck: Checkpoint)
    requires ck.marker <= |log| && CoveredTo(spans, ResumeLine(p, log, ck))
    ensures LinesMid(p, log, spans, ck, ResumeLine(p, log, ck), Held([], ck.marker, false), ck.marker, ck.skip)
  {
    hide LeadLines;
    ResumeInChunk(p, log, ck);
  }

  lemma LinesTake(p: Parser, log: seq<string>, spans: seq<Span>, prev: Checkpoint, front: nat, h: Held,
                  cur: nat, skipLeading: bool)
    requires LinesMid(p, log, spans, prev, front, h, cur, skipLeading) && (skipLeading ==> cur < |log|)
    ensures LinesMid(p, log, spans, prev, front, TakeChunk(h, skipLeading, cur, Parse(p, Lines(ChunkAt(log, cur)))),
                     NextMarker(log, cur), false)
  {
    hide Parse, LinesHeld, ResumeLine, CoveredTo, InChunk;
    if cur == |log| {
      assert Lines("") == [];
      ParseNothing(p);
    } else if skipLeading {
      SkipKeepsLines(p, log, cur, h);
    } else {
      TakeKeepsLines(p, log, cur, front, h);
    }
  }

  // ----------------------------------------------------------------- flushing

  /** What a flush writes, what it keeps, and the checkpoint it aims at. */
  function FlushBatch(h: Held, holdLast: bool): seq<string>
  {
    if holdLast && h.pending != [] then Front(h.pending) else h.pending
  }

  function FlushCarry(h: Held, holdLast: bool): seq<string>
  {
    if holdLast && h.pending != [] then [Last(h.pending)] else []
  }

  function FlushCheckpoint(h: Held, cur: nat, holdLast: bool): Checkpoint
  {
    if holdLast && h.pending != [] then Checkpoint(h.lastStart, h.lastStartSkip) else Checkpoint(cur, false)
  }

  /** Where a flush leaves the front. */
  function FlushedTo(log: seq<string>, h: Held, cur: nat, holdLast: bool): int
    requires cur <= |log|
  {
    Off(log, cur) - NewestLines(FlushCarry(h, holdLast))
  }

  /** The batch of a flush holds the lines from the front to where it leaves it. */
  lemma FlushLines(p: Parser, log: seq<string>, front: nat, h: Held, cur: nat, holdLast: bool)
    requires cur <= |log| && LinesHeld(p, log, cur, front, h)
    ensures front <= FlushedTo(log, h, cur, holdLast) <= Off(log, cur) <= |AllLines(log)|
    ensures LinesOf(FlushBatch(h, holdLast)) == AllLines(log)[front..FlushedTo(log, h, cur, holdLast)]
    ensures LinesHeld(p, log, cur, FlushedTo(log, h, cur, holdLast),
                      Held(FlushCarry(h, holdLast), h.lastStart, h.lastStartSkip))
  {
    hide ResumeLine;
    LinesToPrefix(log, cur, |log|);
    if holdLast && h.pending != [] {
      var f, x := Front(h.pending), [Last(h.pending)];
      assert h.pending == f + x;
      LinesOfConcatenated(f, x);
      NewestIsLast(f, x);
      var l, to := AllLines(log), FlushedTo(log, h, cur, holdLast);
      SliceSplits(l, front, to, Off(log, cur), LinesOf(f), LinesOf(x));
    }
  }

  lemma SliceSplits<T>(l: seq<T>, a: nat, b: nat, c: nat, x: seq<T>, y: seq<T>)
    requires a <= c <= |l| && l[a..c] == x + y && b == c - |y|
    ensures a <= b && l[a..b] == x && l[b..c] == y
  {
    assert l[a..b] == l[a..c][..|x|] && l[b..c] == l[a..c][|x|..];
  }

  /** After the batch is accepted (or there was none), the drain may go on from its
      old checkpoint or from the one the flush aims at. */
  ghost predicate LinesGoOn(p: Parser, log: seq<string>, spans: seq<Span>, prev: Checkpoint, to: nat, h: Held,
                            cur: nat, holdLast: bool)
  {
    var h' := Held(FlushCarry(h, holdLast), h.lastStart, h.lastStartSkip);
    var ck := FlushCheckpoint(h, cur, holdLast);
    && prev.marker <= ck.marker <= |log| && (ck.skip ==> ck.marker < |log|)
    && LinesMid(p, log, spans, ck, to, h', cur, false)
    && (ck.marker == prev.marker ==> LinesMid(p, log, spans, prev, to, h', cur, false))
  }

  lemma LinesFlushed(p: Parser, log: seq<string>, spans: seq<Span>, prev: Checkpoint, front: nat, h: Held,
                     cur: nat, holdLast: bool, spans': seq<Span>)
    requires LinesMid(p, log, spans, prev, front, h, cur, false)
    requires 0 <= FlushedTo(log, h, cur, holdLast)
    requires spans' == if FlushBatch(h, holdLast) == [] then spans
                       else spans + [Span(front, FlushedTo(log, h, cur, holdLast))]
    ensures LinesGoOn(p, log, spans', prev, FlushedTo(log, h, cur, holdLast), h, cur, holdLast)
    ensures CoveredTo(spans', ResumeLine(p, log, prev))
  {
    hide CoveredTo, LinesHeld, LeadLines;
    FlushLines(p, log, front, h, cur, holdLast);
    var to := FlushedTo(log, h, cur, holdLast);
    NothingWritten(h, holdLast);
    if FlushBatch(h, holdLast) != [] {
      CoveredGrows(spans, Span(front, to), front);
      CoveredGrows(spans, Span(front, to), ResumeLine(p, log, prev));
    } else {
      assert AllLines(log)[front..to] == [];
    }
    HeldAtCheckpoint(p, log, cur, to, h, holdLast);
    CoveredBefore(spans', to, ResumeLine(p, log, FlushCheckpoint(h, cur, holdLast)));
  }

  lemma NothingWritten(h: Held, holdLast: bool)
    ensures FlushBatch(h, holdLast) == [] ==> LinesOf(FlushBatch(h, holdLast)) == []
  {
  }

  lemma CoveredBefore(spans: seq<Span>, n: nat, m: nat)
    requires CoveredTo(spans, n) && m <= n
    ensures CoveredTo(spans, m)
  {
  }

  /** The checkpoint a flush aims at is not past what it leaves delivered. */
  lemma HeldAtCheckpoint(p: Parser, log: seq<string>, cur: nat, to: nat, h: Held, holdLast: bool)
    requires cur <= |log| && to == FlushedTo(log, h, cur, holdLast)
    requires LinesHeld(p, log, cur, to, Held(FlushCarry(h, holdLast), h.lastStart, h.lastStartSkip))
    ensures var ck := FlushCheckpoint(h, cur, holdLast);
      && ck.marker <= cur && (ck.skip ==> ck.marker < cur)
      && ResumeLine(p, log, ck) <= to && InChunk(log, ck.marker, to)
      && (FlushCarry(h, holdLast) != [] ==> ck.marker == h.lastStart)
      && (FlushCarry(h, holdLast) == [] ==> ck.marker == cur)
  {
    hide LeadLines;
    LinesToPrefix(log, cur, |log|);
    if cur < |log| {
      ChunkLines(log, cur);
    }
  }

  // ------------------------------------------------------------ chunks arrive

  lemma {:induction false} LinesToStays(log: seq<string>, more: seq<string>, i: nat)
    requires i <= |log|
    ensures LinesTo(log + more, i) == LinesTo(log, i)
  {
    if i > 0 {
      LinesToStays(log, more, i - 1);
    }
  }

  lemma LinesArrive(log: seq<string>, more: seq<string>)
    ensures AllLines(log) <= AllLines(log + more)
  {
    LinesToStays(log, more, |log|);
    LinesToPrefix(log + more, |log|, |log + more|);
  }

  lemma ResumeStays(p: Parser, log: seq<string>, more: seq<string>, ck: Checkpoint)
    requires ck.marker <= |log| && (ck.skip ==> ck.marker < |log|)
    ensures ResumeLine(p, log + more, ck) == ResumeLine(p, log, ck)
  {
    LinesToStays(log, more, ck.marker);
  }

  // ----------------------------------------------------------- what was written

  /** Every batch holds the lines its span names. */
  ghost predicate LinesDelivered(l: seq<string>, batches: seq<seq<string>>, spans: seq<Span>)
  {
    && |batches| == |spans|
    && forall k :: 0 <= k < |spans| ==> HoldsSpan(l, batches[k], spans[k])
  }

  predicate HoldsSpan(l: seq<string>, batch: seq<string>, span: Span)
  {
    span.lo <= span.hi <= |l| && LinesOf(batch) == l[span.lo..span.hi]
  }

  lemma LinesDeliveredMore(l: seq<string>, batches: seq<seq<string>>, spans: seq<Span>, batch: seq<string>, span: Span)
    requires LinesDelivered(l, batches, spans) && HoldsSpan(l, batch, span)
    ensures LinesDelivered(l, batches + [batch], spans + [span])
  {
    hide HoldsSpan;
  }

  lemma LinesDeliveredStay(l: seq<string>, l': seq<string>, batches: seq<seq<string>>, spans: seq<Span>)
    requires LinesDelivered(l, batches, spans) && l <= l'
    ensures LinesDelivered(l', batches, spans)
  {
    forall k | 0 <= k < |spans| ensures HoldsSpan(l', batches[k], spans[k]) {
      assert HoldsSpan(l, batches[k], spans[k]);
      assert l'[spans[k].lo..spans[k].hi] == l[spans[k].lo..spans[k].hi];
    }
  }

  /** The batches, end to end, hold the lines from position a up to position b. */
  ghost predicate LinesWritten(l: seq<string>, batches: seq<seq<string>>, a: nat, b: nat)
  {
    a <= b <= |l| && LinesOf(Flatten(batches)) == l[a..b]
  }

  lemma LinesWrittenMore(l: seq<string>, batches: seq<seq<string>>, a: nat, b: nat, batch: seq<string>, c: nat)
    requires LinesWritten(l, batches, a, b) && b <= c <= |l| && LinesOf(batch) == l[b..c]
    ensures LinesWritten(l, batches + [batch], a, c)
    ensures batch == [] ==> LinesWritten(l, batches, a, c)
  {
    FlattenConcat(batches, [batch]);
    assert Flatten([batch]) == batch;
    LinesOfConcatenated(Flatten(batches), batch);
    assert l[a..c] == l[a..b] + l[b..c];
  }
}
