/** The one-shot dump of a log file (internal/cli/dump.go): a chunk loop that
    holds the newest record until the next chunk has arrived. */
module Dump {
  import opened Text
  import opened Records
  import opened LogLayout

  /** Rejoining looks at the newest record only. */
  lemma RejoinLocal(done: seq<string>, held: seq<string>, chunk: Parsed)
    requires held != [] || done == []
    ensures Rejoin(done + held, chunk) == done + Rejoin(held, chunk)
  {
  }

  /** Rejoining for at most one held record, as the loop does it. */
  lemma RejoinHeld(held: seq<string>, chunk: Parsed)
    requires |held| <= 1
    ensures var joins := chunk.leading && chunk.recs != [] && held != []
        && JoinContinuation(held[0], chunk.recs[0]).Joined?;
      Rejoin(held, chunk) ==
        if joins then [JoinContinuation(held[0], chunk.recs[0]).message] + chunk.recs[1..] else held + chunk.recs
  {
  }

  lemma Regroup(done: seq<string>, batch: seq<string>, held: seq<string>, all: seq<string>)
    requires batch + held == all
    ensures (done + batch) + held == done + all
  {
    assert (done + batch) + held == done + (batch + held);
  }

  ghost predicate Progress(p: Parser, log: seq<string>, i: nat, out: seq<string>)
    requires i <= |log|
  {
    && LinesOf(out) == LinesTo(log, i)
    && AllCapped(out)
    && (WithinCap(p, AllLines(log)) ==> out == EntryMessages(p, LinesTo(log, i)))
  }

  lemma ProgressStep(p: Parser, log: seq<string>, i: nat, done: seq<string>, held: seq<string>)
    requires i <= |log| && Progress(p, log, i, done + held)
    requires held != [] || done == []
    ensures Progress(p, log, NextMarker(log, i), done + Rejoin(held, Parse(p, Lines(ChunkAt(log, i)))))
  {
    if i == |log| {
      ParseNothing(p);
      assert Lines("") == [];
      assert Rejoin(held, Parsed([], false)) == held;
    } else {
      ProgressChunk(p, log, i, done, held);
    }
  }

  lemma ProgressChunk(p: Parser, log: seq<string>, i: nat, done: seq<string>, held: seq<string>)
    requires i < |log| && Progress(p, log, i, done + held)
    requires held != [] || done == []
    ensures Progress(p, log, i + 1, done + Rejoin(held, Parse(p, Lines(log[i]))))
  {
    hide Parse, WithinCap, EntryMessages, AllCapped;
    var chunk := Parse(p, Lines(log[i]));
    RejoinLocal(done, held, chunk);
    RejoinKeepsLines(done + held, chunk);
    ParseKeepsLines(p, log[i]);
    LinesAreLines(log[i]);
    ParseIsCapped(p, Lines(log[i]));
    RejoinIsCapped(done + held, chunk);
    if WithinCap(p, AllLines(log)) {
      LinesToPrefix(log, i + 1, |log|);
      var rest := AllLines(log)[Off(log, i + 1)..];
      assert AllLines(log) == LinesTo(log, i + 1) + rest;
      WithinCapParts(p, LinesTo(log, i + 1), rest);
      RejoinFindsEntries(p, LinesTo(log, i), Lines(log[i]));
    }
  }

  /** The chunk whose response says that nothing more is pending. */
  function LastChunk(log: seq<string>): nat { if log == [] then 0 else |log| - 1 }

  lemma FlattenAppend(written: seq<seq<string>>, batch: seq<string>)
    ensures Flatten(written + [batch]) == Flatten(written) + batch
  {
    FlattenLast(written + [batch]);
    assert Front(written + [batch]) == written;
  }

  /** One chunk's records: what to write now, and what to hold. */
  method TakeIn(heldIn: seq<string>, chunkRecs: seq<string>, leading: bool, more: bool)
    returns (batch: seq<string>, held: seq<string>)
    requires |heldIn| <= 1
    ensures batch + held == Rejoin(heldIn, Parsed(chunkRecs, leading))
    ensures |held| == if more && batch + held != [] then 1 else 0
    ensures heldIn != [] ==> batch + held != []
  {
    RejoinHeld(heldIn, Parsed(chunkRecs, leading));
    var recs := chunkRecs;
    held := heldIn;
    if leading && |recs| > 0 && |held| > 0 {
      var joined := JoinContinuation(held[0], recs[0]);
      if joined.Joined? {
        held := [joined.message];
        recs := recs[1..];
      }
    }
    batch := held + recs;
    held := [];
    if more && |batch| > 0 {
      held := [Last(batch)];
      batch := Front(batch);
    }
  }

  /** The chunk loop. `written` is what the sink accepted, batch by batch. A failed
      pull or write of any chunk stops it; a batch whose write failed may have been
      accepted all the same. */
  method DumpFile(p: Parser, log: seq<string>, pullFails: nat -> bool, writeFails: nat -> bool)
    returns (ok: bool, written: seq<seq<string>>)
    requires AlignedChunks(log)
    ensures ok <==> forall i: nat :: i <= LastChunk(log) ==> !pullFails(i) && !writeFails(i)
    ensures ok ==> LinesOf(Flatten(written)) == Lines(Concat(log))
    ensures ok ==> (Flatten(written) == EntryMessages(p, Lines(Concat(log))) <==> WithinCap(p, Lines(Concat(log))))
    ensures LinesOf(Flatten(written)) <= Lines(Concat(log))
  {
    hide Rejoin, Parse, Progress, LinesOf, Lines, Flatten, EntryMessages, AllLines, Concat, WithinCap, AllCapped;
    LinesOfConcat(log);
    written := [];
    var held: seq<string> := [];
    var marker := 0;
    ProgressStart(p, log);
    assert Flatten(written) + held == [];
    while true
      invariant 0 <= marker <= |log|
      invariant marker <= LastChunk(log)
      invariant forall i: nat :: i < marker ==> !pullFails(i) && !writeFails(i)
      invariant |held| <= 1
      invariant Progress(p, log, marker, Flatten(written) + held)
      invariant held != [] || Flatten(written) == []
      decreases |log| - marker
    {
      ProgressPrefix(p, log, marker, Flatten(written), held);
      ok := !pullFails(marker);
      if !ok {
        return;
      }
      ProgressStep(p, log, marker, Flatten(written), held);
      var recs, leading := ParseRecords(p, ChunkAt(log, marker));
      var next := NextMarker(log, marker);
      var more := next < |log|;
      ghost var all, done := Rejoin(held, Parsed(recs, leading)), Flatten(written);
      var batch, newest := TakeIn(held, recs, leading, more);
      held := newest;
      FlattenAppend(written, batch);
      Regroup(done, batch, held, all);
      ok := !writeFails(marker);
      if !ok {
        var accepted: bool := *;
        if accepted {
          ProgressPrefix(p, log, next, Flatten(written + [batch]), held);
          written := written + [batch];
        }
        return;
      }
      written := written + [batch];
      marker := next;
      if !more {
        assert Flatten(written) + [] == Flatten(written);
        ProgressEnd(p, log, Flatten(written));
        return;
      }
    }
  }

  lemma ProgressStart(p: Parser, log: seq<string>)
    ensures Progress(p, log, 0, []) && Flatten<string>([]) == []
  {
  }

  /** Nothing is written ahead of its turn. */
  lemma ProgressPrefix(p: Parser, log: seq<string>, i: nat, done: seq<string>, held: seq<string>)
    requires i <= |log| && Progress(p, log, i, done + held)
    ensures LinesOf(done) <= AllLines(log)
  {
    LinesOfConcatenated(done, held);
    LinesToPrefix(log, i, |log|);
  }

  lemma ProgressEnd(p: Parser, log: seq<string>, out: seq<string>)
    requires AlignedChunks(log) && Progress(p, log, |log|, out)
    ensures LinesOf(out) == AllLines(log)
    ensures out == EntryMessages(p, AllLines(log)) <==> WithinCap(p, AllLines(log))
  {
    LinesOfConcat(log);
    LinesAreLines(Concat(log));
    WithinCapMessages(p, AllLines(log));
  }
}
