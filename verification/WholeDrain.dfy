/** The drain of a large backlog: waves of range reads first, then the chunk loop
    from the checkpoint they left (drainFile in internal/pipeline/worker.go). */
module WholeDrain {
  import opened Text
  import opened Records
  import opened RangeRead
  import opened ParallelDrain
  import opened Wrappers
  import LogLayout
  import DrainLines
  import DrainEntries
  import Drain

  /** `out` is what one read of `full` between two offsets gives: its lines once each
      and in order, at any size, and - when no entry of several lines beyond offset
      `mid` exceeds the cap - its records, if and only if what is beyond `mid` does not
      continue `newest`. */
  ghost predicate AsOneRead(p: Parser, full: string, from: nat, mid: nat, to: nat, newest: seq<string>, out: seq<string>)
  {
    && from <= mid <= to <= |full|
    && LinesOf(out) == Lines(full[from..to])
    && (WithinCap(p, Lines(full[mid..to])) ==>
          (out == RecordsOf(p, full[from..to]) <==> !Continues(p, newest, Lines(full[mid..to]))))
  }

  /** The waves' records and then those of the chunks behind their checkpoint. */
  lemma ThenSequential(p: Parser, full: string, n: nat, fileSize: nat, runs: seq<WaveRun>, from: nat, mid: nat, to: nat,
                       rest: seq<string>)
    requires Chain(p, full, n, fileSize, runs, from, mid) && ReadTo(runs, from) <= to <= |full|
    requires Refines(p, full, ReadTo(runs, from), from, mid, AllShipped(runs), Newest(runs))
    requires LinesOf(rest) == Lines(full[mid..to])
    requires WithinCap(p, Lines(full[mid..to])) ==> rest == EntryMessages(p, Lines(full[mid..to]))
    ensures AsOneRead(p, full, from, mid, to, Newest(runs), AllShipped(runs) + rest)
  {
    hide Chain, ReadTo, AllShipped, Newest, Lines, WithinCap, Continues, RecordsOf;
    ChainKeepsLines(p, full, n, fileSize, runs, from, mid);
    var a, b := full[from..mid], full[mid..to];
    assert full[from..to] == a + b;
    LinesConcat(a, b);
    LinesOfConcatenated(AllShipped(runs), rest);
    if WithinCap(p, Lines(b)) {
      ParseFindsEntries(p, Lines(b));
      RecordsAre(p, b);
      SamePrefix(AllShipped(runs), rest, RecordsOf(p, b));
      assert SameAsSequential(p, full, from, mid, AllShipped(runs), to) <==> !Continues(p, Newest(runs), Lines(b));
    }
  }

  lemma WholeLines(full: string, size: nat, k: nat)
    requires k <= size <= |full| && IsLineStart(full, k)
    ensures k <= AfterLastNL(full[..size]) <= size && IsLineStart(full, AfterLastNL(full[..size]))
  {
    LastStartIsLast(full[..size]);
    assert IsLineStart(full[..size], k);
  }

  lemma NoChunksYet()
    ensures LogLayout.AlignedChunks([]) && LogLayout.Concat([]) == ""
  {
  }

  lemma OneChunkMore(full: string, chunks: seq<string>, from: nat, at: nat, next: nat)
    requires from <= at <= next <= |full| && IsLineStart(full, at) && IsLineStart(full, next)
    requires LogLayout.AlignedChunks(chunks) && LogLayout.Concat(chunks) == full[from..at]
    ensures var more := chunks + [full[at..next]];
      LogLayout.AlignedChunks(more) && LogLayout.Concat(more) == full[from..next]
  {
    var chunk := full[at..next];
    FlattenConcat(chunks, [chunk]);
    assert Flatten([chunk]) == chunk;
    assert full[from..next] == full[from..at] + chunk;
  }

  /** What PullPortion serves from offset `from` until nothing is pending: the whole
      lines the file has by then, in chunks cut wherever a line ends. */
  method Portions(server: LogServer, from: nat) returns (chunks: seq<string>, to: nat)
    requires server.Valid() && from <= server.size && IsLineStart(server.full, from)
    modifies server
    ensures server.Valid() && old(server.size) <= server.size && server.faults == old(server.faults)
    ensures AfterLastNL(server.full[..old(server.size)]) <= to <= server.size
    ensures from <= to && LogLayout.AlignedChunks(chunks) && LogLayout.Concat(chunks) == server.full[from..to]
  {
    hide AfterLastNL, LogLayout.AlignedChunks;
    var more: nat :| server.size + more <= |server.full|;
    WholeLines(server.full, server.size, from);
    var least := AfterLastNL(server.full[..server.size]);
    server.size := server.size + more;
    to :| least <= to <= server.size && IsLineStart(server.full, to);
    chunks := [];
    var at := from;
    assert LogLayout.AlignedChunks(chunks) && LogLayout.Concat(chunks) == server.full[from..at] by {
      NoChunksYet();
    }
    hide LogLayout.Concat, Flatten;
    while at < to
      invariant server.Valid() && old(server.size) <= server.size && server.faults == old(server.faults)
      invariant from <= at <= to <= server.size && IsLineStart(server.full, at)
      invariant LogLayout.AlignedChunks(chunks) && LogLayout.Concat(chunks) == server.full[from..at]
    {
      var next: nat :| at < next <= to && IsLineStart(server.full, next);
      OneChunkMore(server.full, chunks, from, at, next);
      chunks := chunks + [server.full[at..next]];
      at := next;
    }
  }

  lemma WithinLater(runs: seq<WaveRun>, lo: nat, mid: nat, hi: nat)
    requires AllWithin(runs, lo, mid) && mid <= hi
    ensures AllWithin(runs, lo, hi)
  {
    forall i | 0 <= i < |runs| ensures SizesWithin(runs[i], lo, hi) {
      assert SizesWithin(runs[i], lo, mid);
    }
  }

  /** The waves, when more than one read at a time is wanted. */
  method Waves(reader: ParallelReader, fileSize: nat) returns (r: Outcome, ghost runs: seq<WaveRun>)
    requires reader.server.Valid() && fileSize <= reader.server.size
    requires reader.marker.Some? && reader.marker.value <= reader.server.size
    requires IsLineStart(reader.server.full, reader.marker.value)
    modifies reader, reader.server
    ensures reader.Underway(fileSize, old(reader.marker.value), old(reader.server.size), old(reader.delivered), runs)
    ensures r == Done ==> LooseOf(runs) == []
    ensures r == Done && reader.parallelReads > 1 ==>
      Finished(reader.parallelReads, fileSize, runs, reader.marker.value)
    ensures r == Failed ==> reader.faults > old(reader.faults) || reader.server.faults > old(reader.server.faults)
    ensures reader.server.faults == old(reader.server.faults) ==> AllAnswered(runs)
  {
    hide Chain, Finished, AllAnswered, AllWithin, Refines, ReadTo;
    r, runs := Done, [];
    if reader.parallelReads > 1 {
      r, runs := reader.Drain(fileSize);
    } else {
      NoWavesYet(reader.p, reader.server.full, reader.server.size, reader.parallelReads, fileSize, reader.marker.value);
      assert reader.delivered == reader.delivered + AllShipped([]) + LooseOf([]);
    }
  }

  /** drainFile with a byte offset as its checkpoint. When it gets as far as the
      chunk loop, that loop's state is `rest`; `to` is how far the loop was served. */
  method DrainFile(reader: ParallelReader, fileSize: nat, maxBatchBytes: nat, maxBatchRecords: nat)
    returns (r: Outcome, rest: Option<Drain.FileDrain>, ghost runs: seq<WaveRun>, ghost to: nat)
    requires reader.server.Valid() && fileSize <= reader.server.size
    requires reader.marker.Some? && reader.marker.value <= reader.server.size
    requires IsLineStart(reader.server.full, reader.marker.value)
    modifies reader, reader.server
    ensures reader.Underway(fileSize, old(reader.marker.value), old(reader.server.size), old(reader.delivered), runs)
    ensures r == Failed ==>
      || reader.faults > old(reader.faults) || reader.server.faults > old(reader.server.faults)
      || (rest.Some? && rest.value.faults > 0)
    ensures reader.server.faults == old(reader.server.faults) ==> AllAnswered(runs)
    ensures rest.Some? ==>
      && fresh(rest.value) && rest.value.Sound() && rest.value.p == reader.p
      && reader.marker.value <= to <= reader.server.size
      && LogLayout.Concat(rest.value.log) == reader.server.full[reader.marker.value..to]
      && (reader.parallelReads > 1 ==> Finished(reader.parallelReads, fileSize, runs, reader.marker.value))
    ensures r == Done ==>
      && rest.Some?
      && reader.delivered == old(reader.delivered) + AllShipped(runs)
      && AsOneRead(reader.p, reader.server.full, old(reader.marker.value), reader.marker.value, to, Newest(runs),
                   AllShipped(runs) + Flatten(rest.value.batches))
  {
    hide Chain, ReadTo, AllShipped, Newest, Refines, AllWithin, LogLayout.Concat, Flatten, AfterLastNL, Finished, LooseOf, AllAnswered,
         Drain.SoundAt, AsOneRead, LogLayout.AlignedChunks, DrainLines.ResumeLine, Drain.Wrote, Drain.WroteUpTo, IsLineStart;
    ghost var from := reader.marker.value;
    to, rest := 0, None;
    r, runs := Waves(reader, fileSize);
    if r == Failed {
      return;
    }
    ghost var mid, size := reader.marker.value, reader.server.size;
    LineStartSoFar(reader.p, reader.server.full, ReadTo(runs, from), from, mid, AllShipped(runs), Newest(runs));
    WholeLines(reader.server.full, size, ReadTo(runs, from));
    var chunks, served := Portions(reader.server, reader.marker.value);
    to := served;
    WithinLater(runs, old(reader.server.size), size, reader.server.size);
    var d := new Drain.FileDrain(reader.p, chunks, maxBatchBytes, maxBatchRecords);
    rest := Some(d);
    r := d.DrainFile();
    if r == Done {
      RestWritten(reader.p, chunks, d.batches, reader.server.full[mid..to]);
      ThenSequential(reader.p, reader.server.full, reader.parallelReads, fileSize, runs, from, mid, to, Flatten(d.batches));
    }
  }

  lemma LineStartSoFar(p: Parser, full: string, size: nat, from: nat, to: nat, shipped: seq<string>, newest: seq<string>)
    requires Refines(p, full, size, from, to, shipped, newest)
    ensures from <= to <= size <= |full| && IsLineStart(full, to)
  {
    RefinesToLineStart(p, full, size, from, to, shipped, newest);
  }

  lemma RestWritten(p: Parser, chunks: seq<string>, batches: seq<seq<string>>, text: string)
    requires LogLayout.AlignedChunks(chunks) && LogLayout.Concat(chunks) == text
    requires Drain.Wrote(p, LogLayout.AllLines(chunks), batches[0..], 0, |LogLayout.AllLines(chunks)|)
    ensures LinesOf(Flatten(batches)) == Lines(text)
    ensures WithinCap(p, Lines(text)) ==> Flatten(batches) == EntryMessages(p, Lines(text))
  {
    hide Lines, WithinCap, EntryMessages, Flatten;
    LogLayout.LinesOfConcat(chunks);
    var l := LogLayout.AllLines(chunks);
    assert l[0..|l|] == l && batches[0..] == batches;
  }
}
