/** The drain of one log file as its reader runs it (drainFile and its flush in
    internal/pipeline/worker.go): reading chunk by chunk, holding back the newest
    record at a flush in the middle of a poll, and checkpointing at the chunk
    that record began in. */
module Drain {
  import opened Text
  import opened Records
  import opened LogLayout
  import opened Wrappers
  import opened DrainLines
  import opened DrainEntries

  /** What holds between drains, however the last one ended: every line before the
      checkpoint's resume position was delivered, and when no entry of several lines
      exceeds the cap the batches are runs of whole entries of what a poll has read. */
  ghost predicate SoundAt(p: Parser, log: seq<string>, base: nat, ck: Checkpoint,
                          batches: seq<seq<string>>, spans: seq<Span>, ends: set<nat>)
  {
    && AlignedChunks(log)
    && ck.marker <= |log| && (ck.skip ==> ck.marker < |log|)
    && LinesDelivered(AllLines(log), batches, spans)
    && CoveredTo(spans, ResumeLine(p, log, ck))
    && (WithinCap(p, AllLines(log)) ==> EntriesSound(p, log, base, ck, batches, spans, ends))
  }

  /** What holds during a drain that started from checkpoint `prev`, with `cur` the
      next chunk to pull and everything before position `front` delivered. */
  ghost predicate MidAt(p: Parser, log: seq<string>, base: nat, spans: seq<Span>, prev: Checkpoint,
                        front: nat, h: Held, cur: nat, skipLeading: bool)
  {
    && (skipLeading ==> cur < |log|)
    && LinesMid(p, log, spans, prev, front, h, cur, skipLeading)
    && (WithinCap(p, AllLines(log)) ==> EntriesMid(p, log, base, prev, front, h, cur, skipLeading))
  }

  /** The batches from number `since` on hold the lines from position a up to
      position b, and are their entries when those are within the cap. */
  ghost predicate Written(p: Parser, log: seq<string>, base: nat, batches: seq<seq<string>>, since: nat, a: nat, b: nat)
  {
    && since <= |batches|
    && LinesWritten(AllLines(log), batches[since..], a, b)
    && (WithinCap(p, AllLines(log)) ==> EntriesShipped(p, log, base, batches, since, a, b))
  }

  /** The same, of the new batches alone. */
  ghost predicate Wrote(p: Parser, l: seq<string>, batches: seq<seq<string>>, a: nat, b: nat)
  {
    && a <= b <= |l|
    && LinesOf(Flatten(batches)) == l[a..b]
    && (WithinCap(p, l) ==> Flatten(batches) == EntryMessages(p, l[a..b]))
  }

  /** What a drain that failed wrote is what one that goes on writes first. */
  ghost predicate WroteUpTo(p: Parser, l: seq<string>, batches: seq<seq<string>>, a: nat, limit: nat)
  {
    exists b: nat :: b <= limit && Wrote(p, l, batches, a, b)
  }

  lemma WrittenWrote(p: Parser, log: seq<string>, base: nat, batches: seq<seq<string>>, since: nat, a: nat, b: nat)
    requires Written(p, log, base, batches, since, a, b)
    ensures Wrote(p, AllLines(log), batches[since..], a, b)
  {
    hide AllLines, WithinCap, EntriesShipped, EntryMessages;
    if WithinCap(p, AllLines(log)) {
      ShippedEntries(p, log, base, batches, since, a, b);
    }
  }

  lemma WrittenWithin(p: Parser, log: seq<string>, base: nat, batches: seq<seq<string>>, since: nat, a: nat, b: nat, limit: nat)
    requires Written(p, log, base, batches, since, a, b) && b <= limit
    ensures WroteUpTo(p, AllLines(log), batches[since..], a, limit)
  {
    hide Written, Wrote;
    WrittenWrote(p, log, base, batches, since, a, b);
  }

  /** A drain may begin. */
  lemma BeginAt(p: Parser, log: seq<string>, base: nat, ck: Checkpoint, batches: seq<seq<string>>,
                spans: seq<Span>, ends: set<nat>)
    requires SoundAt(p, log, base, ck, batches, spans, ends)
    ensures ck.marker <= |log|
    ensures MidAt(p, log, base, spans, ck, ResumeLine(p, log, ck), Held([], ck.marker, false), ck.marker, ck.skip)
    ensures Written(p, log, base, batches, |batches|, ResumeLine(p, log, ck), ResumeLine(p, log, ck))
  {
    hide WithinCap, EntriesSound, EntriesMid, EntriesShipped, LinesMid, AllLines, LinesDelivered, CoveredTo, ResumeLine,
         AlignedChunks;
    LinesStart(p, log, spans, ck);
    ResumeInChunk(p, log, ck);
    if WithinCap(p, AllLines(log)) {
      EntriesBegin(p, log, base, ck, batches, spans, ends);
    }
  }

  lemma TakeAt(p: Parser, log: seq<string>, base: nat, spans: seq<Span>, prev: Checkpoint,
               front: nat, h: Held, cur: nat, skipLeading: bool)
    requires MidAt(p, log, base, spans, prev, front, h, cur, skipLeading) && cur <= |log|
    ensures MidAt(p, log, base, spans, prev, front, TakeChunk(h, skipLeading, cur, Parse(p, Lines(ChunkAt(log, cur)))),
                  NextMarker(log, cur), false)
  {
    hide WithinCap, EntriesMid, LinesMid, AllLines, TakeChunk, Parse, Lines, ChunkAt, NextMarker;
    LinesTake(p, log, spans, prev, front, h, cur, skipLeading);
    if WithinCap(p, AllLines(log)) {
      EntriesTake(p, log, base, prev, front, h, cur, skipLeading);
    }
  }

  /** With the batch, if any, accepted: where the drain may go on from. */
  ghost predicate GoOn(p: Parser, log: seq<string>, base: nat, batches: seq<seq<string>>, spans: seq<Span>,
                       ends: set<nat>, prev: Checkpoint, to: nat, h: Held, cur: nat, holdLast: bool)
  {
    var h' := Held(FlushCarry(h, holdLast), h.lastStart, h.lastStartSkip);
    var ck := FlushCheckpoint(h, cur, holdLast);
    && prev.marker <= ck.marker <= cur <= |log|
    && if cur < |log| then
         && SoundAt(p, log, base, ck, batches, spans, ends)
         && MidAt(p, log, base, spans, ck, to, h', cur, false)
         && (ck.marker == prev.marker ==> MidAt(p, log, base, spans, prev, to, h', cur, false))
       else
         && FlushCarry(h, holdLast) == [] && ck == Checkpoint(|log|, false)
         && to == |AllLines(log)| && CoveredTo(spans, to)
         && SoundAt(p, log, |log|, ck, batches, spans, ends + {|AllLines(log)|})
  }

  /** All a flush relies on, at once. */
  lemma FlushAt(p: Parser, log: seq<string>, base: nat, prev: Checkpoint, batches: seq<seq<string>>, spans: seq<Span>,
                ends: set<nat>, front: nat, h: Held, cur: nat, holdLast: bool, since: nat, from: nat)
    requires SoundAt(p, log, base, prev, batches, spans, ends) && cur <= |log|
    requires MidAt(p, log, base, spans, prev, front, h, cur, false) && FlushPoint(p, log, cur, holdLast)
    requires Written(p, log, base, batches, since, from, front)
    ensures front <= FlushedTo(log, h, cur, holdLast) <= Off(log, cur) <= |AllLines(log)|
    ensures var to, batch := FlushedTo(log, h, cur, holdLast), FlushBatch(h, holdLast);
      && SoundAt(p, log, base, prev, batches + [batch], spans + [Span(front, to)], ends + PollEnd(log, cur))
      && Written(p, log, base, batches + [batch], since, from, to)
      && (if batch == [] then
            Written(p, log, base, batches, since, from, to) && GoOn(p, log, base, batches, spans, ends, prev, to, h, cur, holdLast)
          else
            GoOn(p, log, base, batches + [batch], spans + [Span(front, to)], ends + PollEnd(log, cur), prev, to, h, cur, holdLast))
  {
    hide WithinCap, EntriesSound, EntriesMid, EntriesShipped, EntriesGoOn, AllLines, LinesDelivered, CoveredTo,
         ResumeLine, AlignedChunks, LinesHeld, Off, FlushedTo, FlushBatch, GoOn, LinesWritten, LinesGoOn, PollEnd;
    FlushLines(p, log, front, h, cur, holdLast);
    var to, batch := FlushedTo(log, h, cur, holdLast), FlushBatch(h, holdLast);
    var batches', spans', ends' := batches + [batch], spans + [Span(front, to)], ends + PollEnd(log, cur);
    LinesDeliveredMore(AllLines(log), batches, spans, batch, Span(front, to));
    assert batches'[since..] == batches[since..] + [batch];
    LinesWrittenMore(AllLines(log), batches[since..], from, front, batch, to);
    CoveredGrows(spans, Span(front, to), ResumeLine(p, log, prev));
    if WithinCap(p, AllLines(log)) {
      EntriesFlush(p, log, base, prev, batches, spans, ends, front, h, cur, holdLast, since, from);
    }
    LinesFlushed(p, log, spans, prev, front, h, cur, holdLast, if batch == [] then spans else spans');
    if batch == [] {
      GoOnAt(p, log, base, batches, spans, ends, prev, to, h, cur, holdLast);
    } else {
      GoOnAt(p, log, base, batches', spans', ends', prev, to, h, cur, holdLast);
    }
  }

  lemma GoOnAt(p: Parser, log: seq<string>, base: nat, batches: seq<seq<string>>, spans: seq<Span>, ends: set<nat>,
               prev: Checkpoint, to: nat, h: Held, cur: nat, holdLast: bool)
    requires SoundAt(p, log, base, prev, batches, spans, ends) && cur <= |log| && FlushPoint(p, log, cur, holdLast)
    requires LinesGoOn(p, log, spans, prev, to, h, cur, holdLast)
    requires cur < |log| && WithinCap(p, AllLines(log)) ==> EntriesGoOn(p, log, base, prev, to, h, cur, holdLast)
    ensures GoOn(p, log, base, batches, spans, ends, prev, to, h, cur, holdLast)
  {
    hide WithinCap, EntriesSound, EntriesMid, AllLines, LinesDelivered, CoveredTo, ResumeLine, AlignedChunks, LinesHeld, Off;
    OffEnd(log);
    var ck := FlushCheckpoint(h, cur, holdLast);
    if WithinCap(p, AllLines(log)) {
      if cur < |log| {
        EntriesAdvance(p, log, base, prev, batches, spans, ends, ck);
      } else {
        ResumeAtEnd(p, log);
        EntriesEnd(p, log, base, prev, batches, spans, ends);
      }
    }
    ResumeAtEnd(p, log);
  }

  lemma ResumeAtEnd(p: Parser, log: seq<string>)
    ensures ResumeLine(p, log, Checkpoint(|log|, false)) == |AllLines(log)|
  {
    OffEnd(log);
  }

  lemma ArriveAt(p: Parser, log: seq<string>, base: nat, ck: Checkpoint, batches: seq<seq<string>>,
                 spans: seq<Span>, ends: set<nat>, more: seq<string>)
    requires SoundAt(p, log, base, ck, batches, spans, ends) && AlignedChunks(more)
    ensures ck.marker <= |log| && ResumeLine(p, log + more, ck) == ResumeLine(p, log, ck)
    ensures SoundAt(p, log + more, base, ck, batches, spans, ends)
  {
    hide WithinCap, EntriesSound, AllLines, LinesDelivered, CoveredTo, ResumeLine;
    LinesArrive(log, more);
    ResumeStays(p, log, more, ck);
    LinesDeliveredStay(AllLines(log), AllLines(log + more), batches, spans);
    if WithinCap(p, AllLines(log + more)) {
      CappedBefore(p, log, more);
      EntriesArrive(p, log, base, ck, batches, spans, ends, more);
    }
  }

  lemma UpToTheEnd(p: Parser, log: seq<string>, batches: seq<seq<string>>, a: nat, cur: nat)
    requires cur <= |log| && WroteUpTo(p, AllLines(log), batches, a, Off(log, cur))
    ensures WroteUpTo(p, AllLines(log), batches, a, |AllLines(log)|)
  {
    hide Wrote, Off, AllLines;
    LinesToPrefix(log, cur, |log|);
    OffEnd(log);
    var b: nat :| b <= Off(log, cur) && Wrote(p, AllLines(log), batches, a, b);
    assert Off(log, cur) <= Off(log, |log|);
  }

  lemma WrittenSince(p: Parser, log: seq<string>, base: nat, batches: seq<seq<string>>, since: nat, a: nat, b: nat)
    requires Written(p, log, base, batches, since, a, b)
    ensures since <= |batches|
  {
  }

  // -------------------------------------------------- when a drain writes and saves

  /** What a drain did outside, and with what in hand. Pull: it asked for the chunk
      at `marker`, having taken in `bytes` bytes since its last accepted batch and
      holding `records` records, the newest begun in chunk `lastStart`. Write: it
      wrote `records` records, at the end of the poll if `final`. Save: with `held`
      records in hand it replaced checkpoint `was`. */
  datatype Act =
    | Pull(marker: nat, ok: bool, bytes: nat, records: nat, lastStart: nat, store: Checkpoint)
    | Write(final: bool, bytes: nat, records: nat)
    | Save(was: Checkpoint, ck: Checkpoint, held: nat)

  /** The most records a flush in the middle of a poll keeps. */
  function MostHeld(p: Parser): nat { if p.Grouping? then 1 else 0 }

  /** An act that is neither late nor early, the limits on a batch being maxBytes and
      maxRecords (0: none; both 0: no batching). More is only asked for while the
      limits are not reached, or with at most the held-back record in hand and the
      checkpoint at the chunk that record began in, or at the next one if there is
      none. A batch in the middle of a poll has reached a limit, the held-back
      record counted. A checkpoint moves unless nothing is held back from it. */
  predicate OnTime(p: Parser, maxBytes: nat, maxRecords: nat, a: Act)
  {
    match a
    case Pull(marker, _, bytes, records, lastStart, store) =>
      || (records <= MostHeld(p) && store.marker == (if records > 0 then lastStart else marker))
      || (maxBytes + maxRecords > 0 && (maxBytes == 0 || bytes < maxBytes) && (maxRecords == 0 || records < maxRecords))
    case Write(final, bytes, records) =>
      || final || maxBytes + maxRecords == 0
      || (maxBytes > 0 && bytes >= maxBytes) || (maxRecords > 0 && records + MostHeld(p) >= maxRecords)
    case Save(was, ck, held) => ck.marker != was.marker || held == 0
  }

  predicate AllOnTime(p: Parser, maxBytes: nat, maxRecords: nat, acts: seq<Act>)
  {
    forall k :: 0 <= k < |acts| ==> OnTime(p, maxBytes, maxRecords, acts[k])
  }

  /** From some point on, a log of acts only has new ones that are on time. */
  predicate GoneOnTime(p: Parser, maxBytes: nat, maxRecords: nat, was: seq<Act>, acts: seq<Act>)
  {
    was <= acts && AllOnTime(p, maxBytes, maxRecords, acts[|was|..])
  }

  lemma NoActsYet(p: Parser, maxBytes: nat, maxRecords: nat, acts: seq<Act>)
    ensures GoneOnTime(p, maxBytes, maxRecords, acts, acts)
  {
  }

  lemma OneActMore(p: Parser, maxBytes: nat, maxRecords: nat, was: seq<Act>, acts: seq<Act>, a: Act)
    requires GoneOnTime(p, maxBytes, maxRecords, was, acts) && OnTime(p, maxBytes, maxRecords, a)
    ensures GoneOnTime(p, maxBytes, maxRecords, was, acts + [a])
  {
    hide OnTime;
    assert (acts + [a])[|was|..] == acts[|was|..] + [a];
  }

  lemma ActsChain(p: Parser, maxBytes: nat, maxRecords: nat, was: seq<Act>, mid: seq<Act>, acts: seq<Act>)
    requires GoneOnTime(p, maxBytes, maxRecords, was, mid) && GoneOnTime(p, maxBytes, maxRecords, mid, acts)
    ensures GoneOnTime(p, maxBytes, maxRecords, was, acts)
  {
    hide OnTime;
    assert acts[|was|..] == mid[|was|..] + acts[|mid|..];
  }

  /** One log file, its durable checkpoint, and the sink. The fields under
      "memory" are the locals of drainFile; they do not survive a drain. The log
      grows by whole chunks between drains: a chunk that arrives before the last
      one of a poll was pulled might as well have been there from the start, and
      one that arrives later is not seen by that poll. */
  class FileDrain {
    const p: Parser
    const maxBatchBytes: nat
    const maxBatchRecords: nat

    var log: seq<string>

    // durable
    var store: Checkpoint
    var batches: seq<seq<string>>
    ghost var spans: seq<Span>

    /** The lines at which a poll's last flush delivered or checkpointed, and the
        chunk the last one to get its checkpoint in place stood at. */
    ghost var ends: set<nat>
    ghost var base: nat

    /** How often something outside has failed. */
    ghost var faults: nat

    /** What was done outside, in order; the next chunk to be had; the bytes pulled
        since the last accepted batch of this drain; the records ever acknowledged. */
    ghost var acts: seq<Act>
    ghost var reached: nat
    ghost var taken: nat
    ghost var acked: nat

    // memory
    var pending: seq<string>
    var pendingBytes: nat
    var lastStart: nat
    var lastStartSkip: bool
    var prev: Checkpoint
    var shipped: nat
    ghost var front: nat

    constructor (p: Parser, log: seq<string>, maxBatchBytes: nat, maxBatchRecords: nat)
      requires AlignedChunks(log)
      ensures Sound() && batches == [] && spans == [] && ends == {} && faults == 0
      ensures store == Checkpoint(0, false) && this.log == log && this.p == p && ResumeAt() == 0
    {
      this.p, this.log, this.maxBatchBytes, this.maxBatchRecords := p, log, maxBatchBytes, maxBatchRecords;
      store, prev, batches, spans := Checkpoint(0, false), Checkpoint(0, false), [], [];
      pending, pendingBytes, lastStart, lastStartSkip, shipped, front, faults := [], 0, 0, false, 0, 0, 0;
      base, ends := 0, {};
      acts, reached, taken, acked := [], 0, 0, 0;
      new;
      assert this.log[0..] == this.log;
    }

    ghost predicate Sound()
      reads `log, `base, `store, `batches, `spans, `ends
    {
      SoundAt(p, log, base, store, batches, spans, ends)
    }

    /** No entry of several lines is larger than the cap. */
    ghost predicate Capped()
      reads `log
    {
      WithinCap(p, AllLines(log))
    }

    /** The position that the next drain delivers from. */
    ghost function ResumeAt(): nat
      reads `log, `store
      requires store.marker <= |log|
    {
      ResumeLine(p, log, store)
    }

    /** Chunks arrive. */
    method Arrive(more: seq<string>)
      requires Sound() && AlignedChunks(more)
      modifies `log
      ensures Sound() && log == old(log) + more
      ensures store.marker <= |old(log)| && ResumeAt() == old(ResumeAt())
    {
      hide SoundAt, ResumeLine;
      ArriveAt(p, log, base, store, batches, spans, ends, more);
      log := log + more;
    }

    ghost function HeldNow(): Held
      reads `pending, `lastStart, `lastStartSkip
    {
      Held(pending, lastStart, lastStartSkip)
    }

    ghost predicate InDrain(cur: nat, skipLeading: bool)
      reads `log, `base, `store, `batches, `spans, `ends, `prev, `front, `pending, `lastStart, `lastStartSkip
    {
      && Sound()
      && store == prev
      && MidAt(p, log, base, spans, prev, front, HeldNow(), cur, skipLeading)
    }

    /** Nothing was done outside since the last chunk was asked for, if that was the last act. */
    ghost predicate Current()
      reads `acts, `store
    {
      acts != [] && Last(acts).Pull? ==> Last(acts).store == store
    }

    /** sink.Write. A nil error means the batch was accepted; after an error it
        may or may not have been. `end` is the end of the poll, if this is its last flush. */
    method SinkWrite(batch: seq<string>, ghost span: Span, ghost end: set<nat>) returns (ok: bool)
      modifies `batches, `spans, `ends, `faults, `acts, `taken, `acked
      ensures acts == old(acts) + [Write(reached >= |log|, old(taken), |batch|)]
      ensures taken == (if ok then 0 else old(taken)) && acked == old(acked) + if ok then |batch| else 0
      ensures faults == old(faults) + if ok then 0 else 1
      ensures ok ==> batches == old(batches) + [batch] && spans == old(spans) + [span] && ends == old(ends) + end
      ensures (batches == old(batches) && spans == old(spans) && ends == old(ends))
           || (batches == old(batches) + [batch] && spans == old(spans) + [span] && ends == old(ends) + end)
    {
      acts := acts + [Write(reached >= |log|, taken, |batch|)];
      ok := *;
      faults := faults + if ok then 0 else 1;
      if ok {
        taken, acked := 0, acked + |batch|;
      }
      var accepted: bool := *;
      if ok || accepted {
        batches, spans, ends := batches + [batch], spans + [span], ends + end;
      }
    }

    /** store.Set. After an error the checkpoint may or may not be in place. */
    method SetCheckpoint(ck: Checkpoint) returns (ok: bool)
      modifies `store, `faults, `acts
      ensures acts == old(acts) + [Save(old(store), ck, |pending|)]
      ensures faults == old(faults) + if ok then 0 else 1
      ensures ok ==> store == ck
      ensures !ok ==> store == ck || store == old(store)
    {
      acts := acts + [Save(store, ck, |pending|)];
      ok := *;
      faults := faults + if ok then 0 else 1;
      var persisted: bool := *;
      if ok || persisted {
        store := ck;
      }
    }

    /** sink.Write of a batch that keeps all that holds between drains. */
    method Deliver(batch: seq<string>, ghost span: Span, ghost end: set<nat>) returns (ok: bool)
      requires Sound() && SoundAt(p, log, base, store, batches + [batch], spans + [span], ends + end)
      requires OnTime(p, maxBatchBytes, maxBatchRecords, Write(reached >= |log|, taken, |batch|))
      modifies `batches, `spans, `ends, `faults, `acts, `taken, `acked
      ensures Sound() && Current() && GoneOnTime(p, maxBatchBytes, maxBatchRecords, old(acts), acts)
      ensures taken == (if ok then 0 else old(taken)) && acked == old(acked) + if ok then |batch| else 0
      ensures faults == old(faults) + if ok then 0 else 1
      ensures ok ==> batches == old(batches) + [batch] && spans == old(spans) + [span] && ends == old(ends) + end
      ensures (batches == old(batches) && spans == old(spans) && ends == old(ends))
           || (batches == old(batches) + [batch] && spans == old(spans) + [span] && ends == old(ends) + end)
    {
      hide SoundAt, OnTime, GoneOnTime;
      NoActsYet(p, maxBatchBytes, maxBatchRecords, acts);
      OneActMore(p, maxBatchBytes, maxBatchRecords, acts, acts, Write(reached >= |log|, taken, |batch|));
      ok := SinkWrite(batch, span, end);
    }

    /** store.Set, and what it means for the count of lines when a poll ends with it. */
    method AdvanceTo(ck: Checkpoint) returns (ok: bool)
      requires Sound() && ck.marker <= |log|
      requires ck.marker < |log| ==> SoundAt(p, log, base, ck, batches, spans, ends)
      requires ck.marker == |log| ==> SoundAt(p, log, |log|, ck, batches, spans, ends + {|AllLines(log)|})
      modifies `store, `faults, `base, `ends, `acts
      ensures Sound() && old(ends) <= ends
      ensures acts == old(acts) + [Save(old(store), ck, |pending|)]
      ensures faults == old(faults) + if ok then 0 else 1
      ensures ok ==> store == ck
      ensures !ok ==> store == ck || store == old(store)
      ensures ck.marker < |log| ==> base == old(base) && ends == old(ends)
      ensures ck.marker == |log| ==> ends <= old(ends) + {|AllLines(log)|}
    {
      hide SoundAt, AllLines;
      ok := SetCheckpoint(ck);
      if store == ck && ck.marker == |log| {
        base, ends := |log|, ends + {|AllLines(log)|};
      }
    }

    /** What a drain delivered beyond its durable checkpoint lies in the chunk that
        the checkpoint names: a crash costs at most that chunk's records again. */
    lemma OneChunkAgain(cur: nat, skipLeading: bool)
      requires InDrain(cur, skipLeading)
      ensures store.marker <= |log| && InChunk(log, store.marker, front)
    {
      hide SoundAt, EntriesMid, InChunk, LinesHeld, ResumeLine;
    }

    /** The part of flush that holds the newest record back. */
    method HoldNewest(cur: nat, holdLast: bool) returns (ckpt: Checkpoint, carry: seq<string>)
      modifies `pending
      ensures ckpt == FlushCheckpoint(old(HeldNow()), cur, holdLast)
      ensures pending == FlushBatch(old(HeldNow()), holdLast) && carry == FlushCarry(old(HeldNow()), holdLast)
    {
      ckpt := Checkpoint(cur, false);
      carry := [];
      if holdLast && |pending| > 0 {
        carry := [Last(pending)];
        pending := Front(pending);
        ckpt := Checkpoint(lastStart, lastStartSkip);
      }
    }

    /** The end of a flush whose batch, if any, was accepted: `h` is what was held,
        and everything before `to` is delivered. */
    method MoveOn(cur: nat, holdLast: bool, ckpt: Checkpoint, carry: seq<string>, ghost h: Held, ghost to: nat)
      returns (ok: bool)
      requires Sound() && store == prev && Current()
      requires GoOn(p, log, base, batches, spans, ends, prev, to, h, cur, holdLast)
      requires ckpt == FlushCheckpoint(h, cur, holdLast) && carry == FlushCarry(h, holdLast)
      requires h.lastStart == lastStart && h.lastStartSkip == lastStartSkip
      modifies `store, `base, `ends, `faults, `pending, `prev, `front, `acts
      ensures Sound() && old(ends) <= ends && Current()
      ensures pending == carry && (ok ==> store.marker == ckpt.marker)
      ensures GoneOnTime(p, maxBatchBytes, maxBatchRecords, old(acts), acts)
      ensures faults == old(faults) + if ok then 0 else 1
      ensures old(store).marker <= store.marker && front == to
      ensures cur < |log| ==> base == old(base) && ends == old(ends) && (ok ==> InDrain(cur, false))
      ensures cur >= |log| ==> ends <= old(ends) + {|AllLines(log)|}
      ensures ok && cur >= |log| ==> store == Checkpoint(|log|, false)
      ensures cur >= |log| ==> to == |AllLines(log)| && CoveredTo(spans, to)
    {
      hide SoundAt, MidAt, AllLines, FlushCheckpoint, FlushCarry, CoveredTo, GoneOnTime;
      NoActsYet(p, maxBatchBytes, maxBatchRecords, acts);
      pending := carry;
      front := to;
      if ckpt.marker == prev.marker && |carry| > 0 {
        return true; // the held record began where the checkpoint already stands
      }
      OneActMore(p, maxBatchBytes, maxBatchRecords, acts, acts, Save(store, ckpt, |pending|));
      ok := AdvanceTo(ckpt);
      if ok {
        prev := ckpt;
      }
    }

    /** flush, with `cur` the chunk after the last one taken in. `since` counts the
        batches written before this drain, which started delivering at `from`. */
    method Flush(cur: nat, holdLast: bool, ghost since: nat, ghost from: nat) returns (ok: bool)
      requires InDrain(cur, false) && cur <= |log| && FlushPoint(p, log, cur, holdLast)
      requires Current() && pendingBytes == taken && reached == cur && (cur < |log| ==> Due())
      requires Written(p, log, base, batches, since, from, front)
      modifies `store, `batches, `spans, `ends, `base, `faults, `pending, `pendingBytes, `prev, `shipped, `front, `acts,
               `taken, `acked
      ensures Sound() && Current() && GoneOnTime(p, maxBatchBytes, maxBatchRecords, old(acts), acts)
      ensures pendingBytes == taken && acked - shipped == old(acked - shipped)
      ensures ok && cur < |log| ==>
        |pending| <= MostHeld(p) && store.marker == (if |pending| > 0 then lastStart else cur)
      ensures faults >= old(faults) && (ok <==> faults == old(faults))
      ensures cur < |log| ==> base == old(base)
      ensures ok && cur < |log| ==> InDrain(cur, false) && Written(p, log, base, batches, since, from, front)
      ensures since <= |batches| && WroteUpTo(p, AllLines(log), batches[since..], from, Off(log, cur))
      ensures ok && cur == |log| ==>
        && store == Checkpoint(|log|, false) && CoveredTo(spans, |AllLines(log)|)
        && Wrote(p, AllLines(log), batches[since..], from, |AllLines(log)|)
      ensures old(batches) <= batches && |batches| <= |old(batches)| + 1
      ensures old(spans) <= spans && old(ends) <= ends
      ensures ends <= old(ends) + PollEnd(log, cur)
      ensures old(store).marker <= store.marker
    {
      hide SoundAt, MidAt, AllLines, Off, FlushBatch, FlushCarry, FlushCheckpoint, FlushedTo, Written, WroteUpTo, Wrote, GoOn,
           CoveredTo, GoneOnTime, OnTime, Due;
      ghost var h, to := HeldNow(), FlushedTo(log, HeldNow(), cur, holdLast);
      FlushAt(p, log, base, prev, batches, spans, ends, front, h, cur, holdLast, since, from);
      KeepsNewest(h, cur, holdLast);
      WriteIsDue(cur, holdLast);
      ghost var was := acts;
      var ckpt, carry := HoldNewest(cur, holdLast);
      ok := WritePending(carry, h, to, cur, holdLast, since, from);
      if !ok {
        return;
      }
      WrittenWithin(p, log, base, batches, since, from, to, Off(log, cur));
      WrittenWrote(p, log, base, batches, since, from, to);
      ghost var mid := acts;
      ok := MoveOn(cur, holdLast, ckpt, carry, h, to);
      ActsChain(p, maxBatchBytes, maxBatchRecords, was, mid, acts);
    }

    /** The write of a flush, when there is something to write. After an error what
        is held back is held with the rest again. */
    method WritePending(carry: seq<string>, ghost h: Held, ghost to: nat, ghost cur: nat, ghost holdLast: bool,
                        ghost since: nat, ghost from: nat)
      returns (ok: bool)
      requires Sound() && Current() && pendingBytes == taken && cur <= |log| && front <= to <= Off(log, cur)
      requires SoundAt(p, log, base, store, batches + [pending], spans + [Span(front, to)], ends + PollEnd(log, cur))
      requires Written(p, log, base, batches, since, from, front)
      requires Written(p, log, base, batches + [pending], since, from, to)
      requires pending == [] ==> Written(p, log, base, batches, since, from, to)
      requires if pending == [] then GoOn(p, log, base, batches, spans, ends, prev, to, h, cur, holdLast)
               else GoOn(p, log, base, batches + [pending], spans + [Span(front, to)], ends + PollEnd(log, cur), prev, to, h,
                         cur, holdLast)
      requires OnTime(p, maxBatchBytes, maxBatchRecords, Write(reached >= |log|, taken, |pending|))
      modifies `batches, `spans, `ends, `faults, `pending, `pendingBytes, `shipped, `acts, `taken, `acked
      ensures Sound() && Current() && GoneOnTime(p, maxBatchBytes, maxBatchRecords, old(acts), acts)
      ensures faults == old(faults) + if ok then 0 else 1
      ensures pendingBytes == taken && acked - shipped == old(acked - shipped)
      ensures !ok ==> pending == old(pending) + carry
      ensures ok ==> GoOn(p, log, base, batches, spans, ends, prev, to, h, cur, holdLast)
      ensures ok ==> Written(p, log, base, batches, since, from, to)
      ensures since <= |batches| && WroteUpTo(p, AllLines(log), batches[since..], from, Off(log, cur))
      ensures old(batches) <= batches && |batches| <= |old(batches)| + 1
      ensures old(spans) <= spans && old(ends) <= ends <= old(ends) + PollEnd(log, cur)
    {
      hide SoundAt, AllLines, Off, Written, WroteUpTo, Wrote, GoOn, GoneOnTime, OnTime, PollEnd;
      NoActsYet(p, maxBatchBytes, maxBatchRecords, acts);
      WrittenWithin(p, log, base, batches, since, from, front, Off(log, cur));
      WrittenWithin(p, log, base, batches + [pending], since, from, to, Off(log, cur));
      WrittenSince(p, log, base, batches, since, from, front);
      ok := true;
      if |pending| > 0 {
        ok := Deliver(pending, Span(front, to), PollEnd(log, cur));
        if !ok {
          pending := pending + carry;
          return;
        }
        shipped := shipped + |pending|;
        pendingBytes := 0;
      }
    }

    /** A flush in the middle of the poll is due. */
    predicate Due()
      reads `pendingBytes, `pending
    {
      || (maxBatchBytes == 0 && maxBatchRecords == 0)
      || (maxBatchBytes > 0 && pendingBytes >= maxBatchBytes)
      || (maxBatchRecords > 0 && |pending| >= maxBatchRecords)
    }

    lemma WriteIsDue(cur: nat, holdLast: bool)
      requires FlushPoint(p, log, cur, holdLast) && pendingBytes == taken && (cur < |log| ==> Due())
      ensures OnTime(p, maxBatchBytes, maxBatchRecords, Write(cur >= |log|, taken, |FlushBatch(HeldNow(), holdLast)|))
    {
    }

    /** What a flush in the middle of a poll keeps, and where its checkpoint is. */
    lemma KeepsNewest(h: Held, cur: nat, holdLast: bool)
      requires FlushPoint(p, log, cur, holdLast)
      ensures |FlushCarry(h, holdLast)| <= MostHeld(p)
      ensures FlushCheckpoint(h, cur, holdLast).marker == if FlushCarry(h, holdLast) != [] then h.lastStart else cur
    {
    }

    /** PullPortion from marker `cur`: the records of that chunk, whether its
        first one is a continuation, its size, the next marker, and whether
        more is pending. */
    method PullPortion(cur: nat)
      returns (ok: bool, recs: seq<string>, leading: bool, bytes: nat, next: nat, more: bool)
      requires cur <= |log|
      modifies `faults, `acts, `reached, `taken
      ensures acts == old(acts) + [Pull(cur, ok, old(taken), |pending|, lastStart, store)]
      ensures reached == (if ok then next else old(reached)) && taken == old(taken) + if ok then bytes else 0
      ensures faults == old(faults) + if ok then 0 else 1
      ensures bytes == |ChunkAt(log, cur)|
      ensures Parsed(recs, leading) == Parse(p, Lines(ChunkAt(log, cur)))
      ensures next == NextMarker(log, cur)
      ensures more <==> next < |log|
    {
      ok := *;
      acts := acts + [Pull(cur, ok, taken, |pending|, lastStart, store)];
      faults := faults + if ok then 0 else 1;
      var data := ChunkAt(log, cur);
      recs, leading := ParseRecords(p, data);
      bytes := |data|;
      next := NextMarker(log, cur);
      more := next < |log|;
      if ok {
        reached, taken := next, taken + bytes;
      }
    }

    /** The part of drainFile's loop that takes in the records of one chunk. */
    method TakeIn(chunkRecs: seq<string>, leading: bool, skipLeading: bool, marker: nat)
      modifies `pending, `lastStart, `lastStartSkip
      ensures Held(pending, lastStart, lastStartSkip)
           == TakeChunk(old(Held(pending, lastStart, lastStartSkip)), skipLeading, marker, Parsed(chunkRecs, leading))
    {
      var recs := chunkRecs;
      var leadAbsorbed := false;
      if leading && |recs| > 0 {
        if skipLeading && |pending| == 0 {
          recs := recs[1..]; // the tail of an entry delivered earlier
          leadAbsorbed := true;
        } else if |pending| > 0 {
          var joined := JoinContinuation(Last(pending), recs[0]);
          if joined.Joined? {
            pending := Front(pending) + [joined.message];
            recs := recs[1..];
            leadAbsorbed := true;
          }
        }
      }
      if |recs| > 0 {
        lastStart := marker;
        lastStartSkip := leadAbsorbed;
      }
      pending := pending + recs;
    }

    /** Another chunk may be asked for: no batch is due but what is held back. */
    ghost predicate MayAsk(marker: nat)
      reads `pending, `pendingBytes, `lastStart, `store
    {
      || !Due()
      || (|pending| <= MostHeld(p) && store.marker == (if |pending| > 0 then lastStart else marker))
    }

    lemma AskedOnTime(marker: nat)
      requires MayAsk(marker) && pendingBytes == taken
      ensures forall ok ::
        OnTime(p, maxBatchBytes, maxBatchRecords, Pull(marker, ok, taken, |pending|, lastStart, store))
    {
    }

    /** The part of drainFile's loop that flushes in the middle of a poll. */
    method FlushIfDue(marker: nat, ghost since: nat, ghost from: nat) returns (ok: bool)
      requires InDrain(marker, false) && marker < |log| && Written(p, log, base, batches, since, from, front)
      requires Current() && pendingBytes == taken && reached == marker
      modifies `store, `batches, `spans, `ends, `base, `faults, `pending, `pendingBytes, `prev, `shipped, `front, `acts,
               `taken, `acked
      ensures Sound() && Current() && GoneOnTime(p, maxBatchBytes, maxBatchRecords, old(acts), acts)
      ensures faults >= old(faults) && (ok <==> faults == old(faults))
      ensures pendingBytes == taken && acked - shipped == old(acked - shipped)
      ensures ok ==>
        InDrain(marker, false) && Written(p, log, base, batches, since, from, front) && MayAsk(marker)
      ensures since <= |batches| && WroteUpTo(p, AllLines(log), batches[since..], from, |AllLines(log)|)
      ensures old(batches) <= batches && old(spans) <= spans && ends == old(ends)
      ensures old(store).marker <= store.marker
    {
      hide SoundAt, MidAt, Written, Wrote, WroteUpTo, AllLines, Off, GoneOnTime, OnTime;
      NoActsYet(p, maxBatchBytes, maxBatchRecords, acts);
      StoppedHere(since, from);
      var full := (maxBatchBytes > 0 && pendingBytes >= maxBatchBytes)
        || (maxBatchRecords > 0 && |pending| >= maxBatchRecords);
      ok := true;
      if full || (maxBatchBytes == 0 && maxBatchRecords == 0) {
        ok := Flush(marker, p.GroupsMultiline(), since, from);
        UpToTheEnd(p, log, batches[since..], from, marker);
      }
    }

    /** Pull the chunk at `marker` and take it in. */
    method NextChunk(marker: nat, skipLeading: bool) returns (ok: bool, next: nat, more: bool)
      requires InDrain(marker, skipLeading) && marker <= |log| && pendingBytes == taken && MayAsk(marker)
      modifies `pending, `pendingBytes, `lastStart, `lastStartSkip, `faults, `acts, `reached, `taken
      ensures Current() && GoneOnTime(p, maxBatchBytes, maxBatchRecords, old(acts), acts) && |acts| > |old(acts)|
      ensures ok ==> pendingBytes == taken && reached == next
      ensures faults == old(faults) + if ok then 0 else 1
      ensures next == NextMarker(log, marker) && (more <==> next < |log|)
      ensures ok ==> InDrain(next, false)
    {
      hide SoundAt, MidAt, TakeChunk, Parse, Lines, ChunkAt, OnTime, GoneOnTime;
      NoActsYet(p, maxBatchBytes, maxBatchRecords, acts);
      AskedOnTime(marker);
      ghost var was := acts;
      forall o: bool ensures GoneOnTime(p, maxBatchBytes, maxBatchRecords, was,
                                        was + [Pull(marker, o, taken, |pending|, lastStart, store)]) {
        OneActMore(p, maxBatchBytes, maxBatchRecords, was, was, Pull(marker, o, taken, |pending|, lastStart, store));
      }
      var recs, leading, bytes;
      ok, recs, leading, bytes, next, more := PullPortion(marker);
      if !ok {
        return;
      }
      TakeAt(p, log, base, spans, prev, front, HeldNow(), marker, skipLeading);
      TakeIn(recs, leading, skipLeading, marker);
      pendingBytes := pendingBytes + bytes;
    }

    /** What a drain begins with. */
    method Begin()
      requires Sound()
      modifies `pending, `pendingBytes, `lastStart, `lastStartSkip, `prev, `shipped, `front, `taken
      ensures pending == [] && pendingBytes == taken == 0 && shipped == 0
      ensures prev == store && store.marker <= |log| && front == ResumeAt()
      ensures InDrain(prev.marker, prev.skip) && Written(p, log, base, batches, |batches|, front, front)
    {
      hide SoundAt, MidAt, Written, ResumeLine;
      BeginAt(p, log, base, store, batches, spans, ends);
      prev := store;
      pending, pendingBytes, shipped := [], 0, 0;
      lastStart, lastStartSkip := prev.marker, false;
      taken := 0;
      front := ResumeAt();
    }

    /** drainFile, on a file that has a checkpoint and needs no re-verification.
        It fails on any failed pull, sink write or checkpoint write, and may be
        cut off between any two of its steps. */
    method DrainFile() returns (r: Outcome)
      requires Sound()
      modifies `store, `batches, `spans, `ends, `base, `faults, `pending, `pendingBytes, `lastStart, `lastStartSkip,
               `prev, `shipped, `front, `acts, `reached, `taken, `acked
      ensures Sound()
      ensures GoneOnTime(p, maxBatchBytes, maxBatchRecords, old(acts), acts) && acked == old(acked) + shipped
      ensures |acts| > |old(acts)| ==> Current()
      ensures old(batches) <= batches && old(spans) <= spans && old(ends) <= ends <= old(ends) + {|AllLines(log)|}
      ensures old(store).marker <= store.marker <= |log| && old(store).marker <= |log|
      ensures faults >= old(faults) && (r == Done <==> faults == old(faults))
      ensures r == Done ==> store == Checkpoint(|log|, false) && CoveredTo(spans, |AllLines(log)|)
      ensures r == Done ==> ResumeAt() == |AllLines(log)|
      ensures r == Done ==> Wrote(p, AllLines(log), batches[|old(batches)|..], old(ResumeAt()), |AllLines(log)|)
      ensures r == Failed ==>
        WroteUpTo(p, AllLines(log), batches[|old(batches)|..], old(ResumeAt()), |AllLines(log)|)
    {
      hide SoundAt, MidAt, Written, Wrote, WroteUpTo, AllLines, Off, CoveredTo, ResumeLine, GoneOnTime, OnTime;
      Begin();
      NoActsYet(p, maxBatchBytes, maxBatchRecords, acts);
      ghost var from := front;
      var marker := prev.marker;
      var skipLeading := prev.skip;
      while true
        invariant InDrain(marker, skipLeading) && marker <= |log| && faults == old(faults)
        invariant Written(p, log, base, batches, |old(batches)|, from, front)
        invariant old(batches) <= batches && old(spans) <= spans && ends == old(ends)
        invariant old(store).marker <= store.marker
        invariant GoneOnTime(p, maxBatchBytes, maxBatchRecords, old(acts), acts) && acked == old(acked) + shipped
        invariant pendingBytes == taken && MayAsk(marker)
        invariant |acts| > |old(acts)| ==> Current()
        decreases |log| - marker
      {
        var cancelled: bool := *;
        if cancelled {
          faults := faults + 1;
          StoppedHere(|old(batches)|, from);
          return Failed;
        }
        ghost var before := acts;
        var ok, next, more := NextChunk(marker, skipLeading);
        ActsChain(p, maxBatchBytes, maxBatchRecords, old(acts), before, acts);
        ghost var mid := acts;
        if !ok {
          StoppedHere(|old(batches)|, from);
          return Failed;
        }
        skipLeading := false;
        marker := next;
        if !more {
          ok := Flush(marker, false, |old(batches)|, from);
          ActsChain(p, maxBatchBytes, maxBatchRecords, old(acts), mid, acts);
          InsideLog();
          OffEnd(log);
          ResumeAtEnd(p, log);
          return if ok then Done else Failed;
        }
        ok := FlushIfDue(marker, |old(batches)|, from);
        ActsChain(p, maxBatchBytes, maxBatchRecords, old(acts), mid, acts);
        if !ok {
          InsideLog();
          return Failed;
        }
      }
    }

    lemma InsideLog()
      requires Sound()
      ensures store.marker <= |log| && CoveredTo(spans, ResumeAt())
    {
    }

    lemma StoppedHere(since: nat, from: nat)
      requires Sound() && Written(p, log, base, batches, since, from, front)
      ensures store.marker <= |log| && since <= |batches|
      ensures WroteUpTo(p, AllLines(log), batches[since..], from, |AllLines(log)|)
    {
      hide AllLines, EntriesShipped, WithinCap, WroteUpTo, EntriesSound, LinesDelivered, CoveredTo, ResumeLine;
      WrittenWithin(p, log, base, batches, since, from, front, |AllLines(log)|);
    }

    /** Every batch ever written is whole entries of the log as it is now. */
    ghost predicate AllWhole()
      reads `log, `batches, `spans
    {
      |batches| == |spans| && forall k :: 0 <= k < |spans| ==> WholeEntriesOf(p, AllLines(log), batches[k], spans[k])
    }

    /** Wherever a poll ended, the next line to arrive, if there is one yet, starts an entry. */
    ghost predicate NoPollEndedInside()
      reads `log, `ends
    {
      forall c :: c in ends ==> Boundary(p, AllLines(log), c)
    }

    lemma WholeOrContinued()
      requires Sound() && Capped()
      ensures AllWhole() <==> NoPollEndedInside()
    {
      hide AllLines, WholeEntriesOf, CheckpointOk, Boundary;
      WholeUnlessContinued(p, AllLines(log), batches, spans, ends);
    }

    /** Any run of drains and arrivals: `caughtUp` when the last drain succeeded and
        nothing has arrived since. No line is ever lost - what is not yet delivered
        is still ahead of the next drain - and once caught up every line has been
        delivered. */
    method Live(steps: seq<Step>) returns (caughtUp: bool)
      requires Sound() && AlignedChunks(Arrivals(steps))
      modifies this
      ensures Sound() && log == old(log) + Arrivals(steps)
      ensures old(batches) <= batches && old(spans) <= spans && old(ends) <= ends
      ensures store.marker <= |log| && CoveredTo(spans, ResumeAt()) && LinesDelivered(AllLines(log), batches, spans)
      ensures caughtUp ==> CoveredTo(spans, |AllLines(log)|)
      ensures GoneOnTime(p, maxBatchBytes, maxBatchRecords, old(acts), acts)
      ensures steps != [] && steps[|steps| - 1] == Poll && faults == old(faults) ==> caughtUp
      ensures Capped() ==> (AllWhole() <==> NoPollEndedInside())
    {
      hide SoundAt, CoveredTo, AllLines, AllWhole, NoPollEndedInside, AlignedChunks, Wrote, WroteUpTo, Capped, LinesDelivered,
           ResumeLine, GoneOnTime;
      NoActsYet(p, maxBatchBytes, maxBatchRecords, acts);
      caughtUp := false;
      var i := 0;
      assert steps[0..] == steps;
      while i < |steps|
        invariant 0 <= i <= |steps| && Sound()
        invariant log + Arrivals(steps[i..]) == old(log) + Arrivals(steps)
        invariant AlignedChunks(Arrivals(steps[i..]))
        invariant old(batches) <= batches && old(spans) <= spans && old(ends) <= ends
        invariant caughtUp ==> CoveredTo(spans, |AllLines(log)|)
        invariant GoneOnTime(p, maxBatchBytes, maxBatchRecords, old(acts), acts)
        invariant faults >= old(faults)
        invariant i > 0 && steps[i - 1] == Poll && faults == old(faults) ==> caughtUp
      {
        assert steps[i..][0] == steps[i] && steps[i..][1..] == steps[i + 1..];
        match steps[i] {
          case Poll =>
            assert Arrivals(steps[i..]) == Arrivals(steps[i + 1..]);
            ghost var mid := acts;
            var r := DrainFile();
            ActsChain(p, maxBatchBytes, maxBatchRecords, old(acts), mid, acts);
            caughtUp := r == Done;
          case Arrival(chunk) =>
            ArrivesFirst(log, chunk, Arrivals(steps[i + 1..]));
            Arrive([chunk]);
            caughtUp := false;
        }
        i := i + 1;
      }
      assert log + [] == log;
      if Capped() {
        WholeOrContinued();
      }
      NothingSkipped();
    }

    lemma NothingSkipped()
      requires Sound()
      ensures store.marker <= |log| && CoveredTo(spans, ResumeAt()) && LinesDelivered(AllLines(log), batches, spans)
    {
    }
  }

  datatype Step = Poll | Arrival(chunk: string)

  function Arrivals(steps: seq<Step>): seq<string>
  {
    if steps == [] then []
    else (if steps[0].Arrival? then [steps[0].chunk] else []) + Arrivals(steps[1..])
  }

  lemma ArrivesFirst(log: seq<string>, chunk: string, rest: seq<string>)
    requires AlignedChunks([chunk] + rest)
    ensures AlignedChunks([chunk]) && AlignedChunks(rest)
    ensures log + ([chunk] + rest) == (log + [chunk]) + rest
  {
    assert forall i :: 0 <= i < |rest| ==> ([chunk] + rest)[i + 1] == rest[i];
    assert ([chunk] + rest)[0] == chunk;
  }

  lemma TwoLines()
    ensures AlignedChunks(["A\n"]) && AlignedChunks(["b\n"])
    ensures AllLines(["A\n"]) == ["A"] && AllLines(["A\n", "b\n"]) == ["A", "b"]
  {
    hide Lines;
    LineAlone("A");
    LineAlone("b");
    assert "A" + [NL] == "A\n" && "b" + [NL] == "b\n";
    var one, two := ["A\n"], ["A\n", "b\n"];
    assert LinesTo(one, 1) == LinesTo(one, 0) + Lines("A\n") == ["A"];
    assert LinesTo(two, 1) == LinesTo(two, 0) + Lines("A\n") == ["A"];
    assert LinesTo(two, 2) == LinesTo(two, 1) + Lines("b\n") == ["A", "b"];
  }

  lemma OneEntryOfTwoLines()
    ensures WithinCap(OnlyA(), ["A"]) && WithinCap(OnlyA(), ["A", "b"])
    ensures EntryMessages(OnlyA(), ["A"]) == ["A"] && EntryMessages(OnlyA(), ["b"]) == ["b"]
    ensures EntryMessages(OnlyA(), ["A", "b"]) == ["A\nb"]
  {
    hide Entries;
    EntriesSingle(OnlyA(), "A");
    EntriesSingle(OnlyA(), "b");
    assert ["A", "b"] == ["A"] + ["b"];
    EntriesMerge(OnlyA(), ["A"], ["b"]);
    assert Entries(OnlyA(), ["A", "b"]) == [["A", "b"]];
    assert ["A", "b"][1..] == ["b"];
    assert Join(["A", "b"]) == "A" + [NL] + Join(["b"]) == "A\nb";
  }

  /** A poll that ends before "b" continues "A": two records, though the entry is one. */
  method ContinuedAfterThePoll() returns (batches: seq<seq<string>>, ok: bool, ghost faults: nat)
    ensures ok <==> faults == 0
    ensures ok ==> Flatten(batches) == ["A", "b"]
    ensures EntryMessages(OnlyA(), AllLines(["A\n", "b\n"])) == ["A\nb"]
  {
    TwoLines();
    OneEntryOfTwoLines();
    hide AllLines, EntryMessages, CoveredTo, WithinCap, AlignedChunks, WroteUpTo, Flatten, Delivered, CheckpointOk, OnlyA,
         Resume, LinesTo, Entries, Join;
    var d := new FileDrain(OnlyA(), ["A\n"], 0, 0);
    var r1 := d.DrainFile();
    ghost var first := d.batches;
    assert d.log + ["b\n"] == ["A\n", "b\n"];
    d.Arrive(["b\n"]);
    assert r1 == Done ==> first == first[0..] && Flatten(first) == ["A"] by {
      assert ["A"][0..1] == ["A"];
    }
    var r2 := d.DrainFile();
    ok, batches, faults := r1 == Done && r2 == Done, d.batches, d.faults;
    if ok {
      assert ["A", "b"][1..2] == ["b"];
      assert d.batches == first + d.batches[|first|..];
      FlattenConcat(first, d.batches[|first|..]);
    }
  }
}
