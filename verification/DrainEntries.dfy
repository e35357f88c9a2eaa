/** The drain of one log file, as far as entries go: when no entry of several lines
    exceeds the cap, batches are runs of whole entries of what a poll has read
    (drainFile and its flush in internal/pipeline/worker.go). */
module DrainEntries {
  import opened Text
  import opened Records
  import opened LogLayout
  import opened DrainLines

  /** A boundary that stays one however the log goes on. */
  predicate Firm(p: Parser, l: seq<string>, k: nat)
  {
    k == 0 || p.NoParser? || (k < |l| && p.Starts(l[k]))
  }

  /** Where entries resume behind a checkpoint. */
  function Resume(p: Parser, log: seq<string>, ck: Checkpoint): (r: nat)
    requires ck.marker <= |log|
    ensures Off(log, ck.marker) <= r <= |AllLines(log)|
  {
    LinesToPrefix(log, ck.marker, |log|);
    if ck.skip then FirstStart(p, AllLines(log), Off(log, ck.marker)) else Off(log, ck.marker)
  }

  /** What a checkpoint into `log` has to promise: the skip flag is set exactly when
      the named chunk opens inside an entry, and that entry ends in the chunk. It
      stands at the end only when there are no chunks yet. */
  ghost predicate CheckpointOk(p: Parser, log: seq<string>, ck: Checkpoint)
  {
    && ck.marker <= |log|
    && (ck.marker == |log| ==> log == [])
    && (ck.skip <==> OpensMidEntry(p, log, ck.marker))
    && Firm(p, AllLines(log), Resume(p, log, ck))
    && (ck.skip ==> Resume(p, log, ck) < Off(log, ck.marker + 1))
  }

  // --------------------------------------------------- taking in one chunk

  /** `h` holds the entries from position d up to chunk cur. */
  ghost predicate Holding(p: Parser, log: seq<string>, cur: nat, d: nat, h: Held)
    requires cur <= |log|
  {
    LinesToPrefix(log, cur, |log|);
    && d <= Off(log, cur)
    && Firm(p, AllLines(log), d)
    && h.pending == EntryMessages(p, AllLines(log)[d..Off(log, cur)])
    && (h.pending != [] ==>
        && h.lastStart < cur
        && InChunk(log, h.lastStart, NewestAt(p, log, cur, d))
        && NewestAt(p, log, cur, d) < Off(log, h.lastStart + 1)
        && (h.lastStartSkip <==> OpensMidEntry(p, log, h.lastStart)))
  }

  /** The position at which the newest held entry begins. */
  ghost function NewestAt(p: Parser, log: seq<string>, cur: nat, d: nat): (q: nat)
    requires cur <= |log| && d < Off(log, cur) <= |AllLines(log)|
    ensures d <= q < Off(log, cur)
  {
    LastEntry(p, AllLines(log)[d..Off(log, cur)]);
    Off(log, cur) - |Last(Entries(p, AllLines(log)[d..Off(log, cur)]))|
  }

  /** Without a skip, the held entries are extended by the chunk's lines. */
  lemma TakeChunkHolds(p: Parser, log: seq<string>, cur: nat, d: nat, h: Held)
    requires cur < |log| && WithinCap(p, AllLines(log)) && Holding(p, log, cur, d, h)
    ensures Holding(p, log, cur + 1, d, TakeChunk(h, false, cur, Parse(p, Lines(log[cur]))))
  {
    hide WithinCap, Parse, OpensMidEntry, InChunk, Firm, TakeChunk, LinesTo, Lines, Entries, Join;
    ChunkLines(log, cur);
    if Lines(log[cur]) != [] {
      TakeChunkPending(p, log, cur, d, h);
      TakeChunkNewest(p, log, cur, d, h);
    } else {
      ParseNothing(p);
      TakeNothing(h, cur);
      assert Off(log, cur + 1) == Off(log, cur);
    }
  }

  lemma TakeNothing(h: Held, cur: nat)
    ensures TakeChunk(h, false, cur, Parsed([], false)) == h
  {
  }

  lemma TakeChunkPending(p: Parser, log: seq<string>, cur: nat, d: nat, h: Held)
    requires cur < |log| && WithinCap(p, AllLines(log))
    requires d <= Off(log, cur) <= Off(log, cur + 1) <= |AllLines(log)|
    requires h.pending == EntryMessages(p, AllLines(log)[d..Off(log, cur)])
    ensures TakeChunk(h, false, cur, Parse(p, Lines(log[cur]))).pending
         == EntryMessages(p, AllLines(log)[d..Off(log, cur + 1)])
  {
    hide WithinCap, Parse, EntryMessages, LinesTo;
    var l, o, o' := AllLines(log), Off(log, cur), Off(log, cur + 1);
    var b := Lines(log[cur]);
    ChunkLines(log, cur);
    assert l[d..o'] == l[d..o] + b;
    SliceWithinCap(p, l, d, o');
    RejoinFindsEntries(p, l[d..o], b);
    assert TakeChunk(h, false, cur, Parse(p, b)).pending == Rejoin(h.pending, Parse(p, b));
  }

  lemma SliceWithinCap(p: Parser, l: seq<string>, a: nat, b: nat)
    requires a <= b <= |l| && WithinCap(p, l)
    ensures WithinCap(p, l[a..b])
  {
    assert l == l[..a] + l[a..];
    WithinCapParts(p, l[..a], l[a..]);
    assert l[a..] == l[a..b] + l[b..];
    WithinCapParts(p, l[a..b], l[b..]);
  }

  lemma EntryLength(p: Parser, l: seq<string>, i: nat)
    requires i < |Entries(p, l)|
    ensures |Entries(p, l)[i]| <= |l|
    decreases |l|
  {
    if |l| > 1 {
      assert l == [l[0]] + l[1..];
      EntriesUnfold(p, l[0], l[1..]);
      if i > 0 || |Entries(p, l)| == |Entries(p, l[1..])| {
        var j := if |Entries(p, l)| == |Entries(p, l[1..])| then i else i - 1;
        EntryLength(p, l[1..], j);
      }
    } else if |l| == 1 {
      assert l == [l[0]];
      EntriesSingle(p, l[0]);
    }
  }

  /** Where the last entry comes from when lines b are added to lines a. */
  lemma NewestOfConcat(p: Parser, a: seq<string>, b: seq<string>)
    requires b != []
    ensures var n := |Last(Entries(p, a + b))|;
      if a != [] && OpensWithContinuation(p, b) && |Entries(p, b)| == 1
      then n == |Last(Entries(p, a))| + |b|
      else n <= |b|
  {
    var ea, eb := Entries(p, a), Entries(p, b);
    EntryLength(p, b, |eb| - 1);
    if a != [] && OpensWithContinuation(p, b) {
      EntriesMerge(p, a, b);
      if |eb| == 1 {
        LastEntry(p, b);
        assert Front(eb) == [];
      }
    } else {
      EntriesSplit(p, a, b);
    }
  }

  /** Which chunk the newest record is put down to. */
  lemma TakeChunkStart(p: Parser, a: seq<string>, b: seq<string>, cur: nat, h: Held)
    requires WithinCap(p, a + b) && b != [] && h.pending == EntryMessages(p, a)
    ensures var h' := TakeChunk(h, false, cur, Parse(p, b));
      if a != [] && OpensWithContinuation(p, b) && |Entries(p, b)| == 1
      then h'.lastStart == h.lastStart && h'.lastStartSkip == h.lastStartSkip
      else h'.lastStart == cur && h'.lastStartSkip == (a != [] && OpensWithContinuation(p, b))
  {
    WithinCapParts(p, a, b);
    ParseFindsEntries(p, b);
    if a != [] && OpensWithContinuation(p, b) {
      JoinFits(p, a, b);
    }
  }

  lemma TakeChunkNewest(p: Parser, log: seq<string>, cur: nat, d: nat, h: Held)
    requires cur < |log| && WithinCap(p, AllLines(log)) && Holding(p, log, cur, d, h)
    requires Lines(log[cur]) != []
    requires Off(log, cur) <= Off(log, cur + 1) <= |AllLines(log)|
    requires d < Off(log, cur + 1)
    ensures var h' := TakeChunk(h, false, cur, Parse(p, Lines(log[cur])));
      && h'.lastStart < cur + 1
      && InChunk(log, h'.lastStart, NewestAt(p, log, cur + 1, d))
      && NewestAt(p, log, cur + 1, d) < Off(log, h'.lastStart + 1)
      && (h'.lastStartSkip <==> OpensMidEntry(p, log, h'.lastStart))
  {
    hide WithinCap, Parse, TakeChunk, LinesTo, Entries, Join;
    var l, o, o' := AllLines(log), Off(log, cur), Off(log, cur + 1);
    var a, b := l[d..o], Lines(log[cur]);
    ChunkLines(log, cur);
    assert l[d..o'] == a + b;
    assert l[o] == b[0];
    SliceWithinCap(p, l, d, o');
    TakeChunkStart(p, a, b, cur, h);
    NewestOfConcat(p, a, b);
    var q := NewestAt(p, log, cur + 1, d);
    assert q == o' - |Last(Entries(p, a + b))|;
    assert |b| == o' - o;
    if a != [] && OpensWithContinuation(p, b) && |Entries(p, b)| == 1 {
      assert q == NewestAt(p, log, cur, d);
    } else {
      assert o <= q < o';
      assert OpensMidEntry(p, log, cur) <==> a != [] && OpensWithContinuation(p, b);
    }
  }

  /** A chunk that opens with the tail of an entry: what is left without it. */
  lemma EntriesAfterTail(p: Parser, b0: seq<string>, b1: seq<string>)
    requires b0 != [] && b1 != [] && p.Starts(b1[0])
    requires forall i :: 0 <= i < |b0| ==> !p.Starts(b0[i])
    requires WithinCap(p, b0 + b1)
    ensures Parse(p, b0 + b1).leading && Parse(p, b0 + b1).recs != []
    ensures Parse(p, b0 + b1).recs[1..] == EntryMessages(p, b1)
  {
    ParseFindsEntries(p, b0 + b1);
    OneEntry(p, b0);
    EntriesSplit(p, b0, b1);
    assert Entries(p, b0 + b1)[1..] == Entries(p, b1);
  }

  /** With a skip, exactly the tail of the delivered entry is dropped. */
  lemma TakeChunkSkips(p: Parser, log: seq<string>, cur: nat, h: Held)
    requires cur < |log| && WithinCap(p, AllLines(log)) && h.pending == []
    requires Off(log, cur) <= |AllLines(log)|
    requires OpensMidEntry(p, log, cur)
    requires FirstStart(p, AllLines(log), Off(log, cur)) < Off(log, cur + 1)
    ensures Holding(p, log, cur + 1, FirstStart(p, AllLines(log), Off(log, cur)),
                    TakeChunk(h, true, cur, Parse(p, Lines(log[cur]))))
  {
    hide WithinCap, Parse, LinesTo, Entries;
    var l, o, o' := AllLines(log), Off(log, cur), Off(log, cur + 1);
    ChunkLines(log, cur);
    var d := FirstStart(p, l, o);
    assert Lines(log[cur])[0] == l[o];
    var b0, b1 := l[o..d], l[d..o'];
    assert Lines(log[cur]) == b0 + b1 && l[o..o'] == b0 + b1;
    SliceWithinCap(p, l, o, o');
    EntriesAfterTail(p, b0, b1);
    assert TakeChunk(h, true, cur, Parse(p, b0 + b1)) == Held(EntryMessages(p, b1), cur, true);
  }

  /** What is held after the first i chunks of a log, if nothing was flushed. */
  function Taken(p: Parser, log: seq<string>, i: nat): Held
    requires i <= |log|
  {
    if i == 0 then Held([], 0, false) else TakeChunk(Taken(p, log, i - 1), false, i - 1, Parse(p, Lines(log[i - 1])))
  }

  lemma {:induction false} TakenSoFar(p: Parser, log: seq<string>, i: nat)
    requires i <= |log|
    ensures AllCapped(Taken(p, log, i).pending)
    ensures WithinCap(p, AllLines(log)) ==> Taken(p, log, i).pending == EntryMessages(p, LinesTo(log, i))
  {
    hide Parse, WithinCap, AllCapped, TakeChunk, EntryMessages;
    if i > 0 {
      TakenSoFar(p, log, i - 1);
      var h, c := Taken(p, log, i - 1), log[i - 1];
      TakeIsRejoin(h, i - 1, Parse(p, Lines(c)));
      LinesAreLines(c);
      ParseIsCapped(p, Lines(c));
      RejoinIsCapped(h.pending, Parse(p, Lines(c)));
      if WithinCap(p, AllLines(log)) {
        LinesToPrefix(log, i, |log|);
        SliceWithinCap(p, AllLines(log), 0, Off(log, i));
        assert AllLines(log)[0..Off(log, i)] == LinesTo(log, i);
        RejoinFindsEntries(p, LinesTo(log, i - 1), Lines(c));
      }
    } else {
      NothingTaken(p);
    }
  }

  lemma NothingTaken(p: Parser)
    ensures AllCapped([]) && EntryMessages(p, []) == []
  {
  }

  lemma TakeIsRejoin(h: Held, cur: nat, chunk: Parsed)
    ensures TakeChunk(h, false, cur, chunk).pending == Rejoin(h.pending, chunk)
  {
  }

  /** Reading chunk by chunk finds exactly the entries if and only if none of
      several lines exceeds the cap, wherever the chunks are cut. */
  lemma TakenAreEntries(p: Parser, log: seq<string>)
    requires AlignedChunks(log)
    ensures Taken(p, log, |log|).pending == EntryMessages(p, AllLines(log)) <==> WithinCap(p, AllLines(log))
  {
    hide Taken;
    TakenSoFar(p, log, |log|);
    LinesOfConcat(log);
    LinesAreLines(Concat(log));
    WithinCapMessages(p, AllLines(log));
  }

  // ----------------------------------------------- entries and lines, side by side

  /** A chunk that opens with the tail of an entry: its first record is that tail. */
  lemma TailIsFirstRecord(p: Parser, b0: seq<string>, b1: seq<string>)
    requires b0 != [] && b1 != [] && p.Starts(b1[0]) && !p.Starts(b0[0])
    requires forall i :: 0 <= i < |b0| ==> !p.Starts(b0[i])
    requires WithinCap(p, b0 + b1) && forall i :: 0 <= i < |b0| ==> IsLine(b0[i])
    ensures var c := Parse(p, b0 + b1); c.leading && c.recs != [] && LinesOf(c.recs[..1]) == b0
  {
    hide Parse, Lines;
    ParseFindsEntries(p, b0 + b1);
    EntriesSplit(p, b0, b1);
    OneEntry(p, b0);
    EntriesHoldAll(p, b0);
    var e := Entries(p, b0)[0];
    assert Entries(p, b0) == [e];
    assert Flatten([e]) == e;
    assert Entries(p, b0 + b1)[0] == e;
    assert Parse(p, b0 + b1).recs[..1] == [Join(e)];
    LinesJoin(e);
    assert LinesOf([Join(e)]) == Lines(Join(e));
  }

  /** The two ways to say where a drain resumes agree. */
  lemma ResumeAgrees(p: Parser, log: seq<string>, ck: Checkpoint)
    requires CheckpointOk(p, log, ck) && WithinCap(p, AllLines(log))
    ensures ResumeLine(p, log, ck) == Resume(p, log, ck)
  {
    hide WithinCap, Parse, LinesTo, Lines;
    if ck.skip {
      var l, o, d := AllLines(log), Off(log, ck.marker), Resume(p, log, ck);
      var o' := Off(log, ck.marker + 1);
      ChunkLines(log, ck.marker);
      var ls := Lines(log[ck.marker]);
      assert ls[0] == l[o] && ls == l[o..d] + l[d..o'] && l[o..o'] == ls;
      LinesAreLines(log[ck.marker]);
      assert forall i :: 0 <= i < d - o ==> l[o..d][i] == ls[i];
      SliceWithinCap(p, l, o, o');
      TailIsFirstRecord(p, l[o..d], l[d..o']);
    }
  }

  /** Where a flush leaves the front, in entries and in lines. */
  lemma FlushedToAgrees(p: Parser, log: seq<string>, front: nat, h: Held, cur: nat, holdLast: bool)
    requires cur <= |log| && Holding(p, log, cur, front, h) && Off(log, cur) <= |AllLines(log)|
    requires forall i :: 0 <= i < |AllLines(log)| ==> IsLine(AllLines(log)[i])
    ensures FlushTo(p, log, front, h, cur, holdLast) == FlushedTo(log, h, cur, holdLast)
  {
    if holdLast && h.pending != [] {
      HeldIsAhead(p, log, cur, front, h);
      var ls := AllLines(log)[front..Off(log, cur)];
      var e := Last(Entries(p, ls));
      EntriesAreLines(p, ls);
      LinesJoin(e);
      assert Last(h.pending) == Join(e);
      assert LinesOf([Join(e)]) == Lines(Join(e));
    }
  }

  // ----------------------------------------------------------------- flushing

  /** Splitting the newest entry off what is held. */
  lemma HoldBack(p: Parser, log: seq<string>, cur: nat, d: nat, h: Held)
    requires cur <= |log| && Holding(p, log, cur, d, h) && h.pending != []
    requires d < Off(log, cur) <= |AllLines(log)|
    ensures var q := NewestAt(p, log, cur, d);
      && Firm(p, AllLines(log), q)
      && Front(h.pending) == EntryMessages(p, AllLines(log)[d..q])
      && Holding(p, log, cur, q, Held([Last(h.pending)], h.lastStart, h.lastStartSkip))
      && NewestAt(p, log, cur, q) == q
      && h.lastStart < cur
  {
    var l, o, q := AllLines(log), Off(log, cur), NewestAt(p, log, cur, d);
    NewestSplits(p, l, d, q, o);
    assert NewestAt(p, log, cur, q) == q;
  }

  lemma NewestSplits(p: Parser, l: seq<string>, d: nat, q: nat, o: nat)
    requires d < o <= |l| && Boundary(p, l, d)
    requires q == o - |Last(Entries(p, l[d..o]))|
    ensures d <= q < o && Boundary(p, l, q)
    ensures EntryMessages(p, l[d..q]) == Front(EntryMessages(p, l[d..o]))
    ensures EntryMessages(p, l[q..o]) == [Last(EntryMessages(p, l[d..o]))]
    ensures |Last(Entries(p, l[q..o]))| == o - q
  {
    hide Entries, Join;
    LastEntry(p, l[d..o]);
    assert l[d..o][..q - d] == l[d..q];
    assert l[d..o][q - d..] == l[q..o];
  }

  /** The hold-back checkpoint is a good one once all before the newest entry
      is delivered. */
  lemma HoldBackCheckpoint(p: Parser, log: seq<string>, cur: nat, q: nat, h: Held)
    requires cur <= |log| && Holding(p, log, cur, q, h) && |h.pending| == 1
    requires q < Off(log, cur) <= |AllLines(log)| && NewestAt(p, log, cur, q) == q
    ensures CheckpointOk(p, log, Checkpoint(h.lastStart, h.lastStartSkip))
    ensures InChunk(log, h.lastStart, q)
  {
    var l, m := AllLines(log), h.lastStart;
    LinesToPrefix(log, m, |log|);
    LinesToPrefix(log, m + 1, |log|);
    ChunkLines(log, m);
    assert Lines(log[m])[0] == l[Off(log, m)];
    assert h.lastStartSkip ==> Resume(p, log, Checkpoint(m, true)) <= q;
  }

  /** When everything pulled so far is delivered, so is everything before the
      next chunk. */
  lemma MidCheckpoint(p: Parser, log: seq<string>, cur: nat)
    requires cur < |log| && Off(log, cur) <= |AllLines(log)| && Firm(p, AllLines(log), Off(log, cur))
    ensures CheckpointOk(p, log, Checkpoint(cur, false))
    ensures InChunk(log, cur, Off(log, cur))
  {
    ChunkLines(log, cur);
  }

  // ------------------------------------------------------- during a drain

  /** What holds during a drain with `cur` the next chunk to pull: everything
      before position `front` is delivered and the rest so far is held, and what
      this drain delivered beyond its checkpoint lies in the checkpoint's chunk. */
  ghost predicate Mid(p: Parser, log: seq<string>, prev: Checkpoint,
                      front: nat, h: Held, cur: nat, skipLeading: bool)
  {
    && WithinCap(p, AllLines(log))
    && CheckpointOk(p, log, prev)
    && prev.marker <= cur <= |log|
    && front <= |AllLines(log)|
    && Off(log, cur) <= |AllLines(log)|
    && InChunk(log, prev.marker, front)
    && (h.pending != [] ==> prev.marker <= h.lastStart)
    && if skipLeading then h.pending == [] && prev == Checkpoint(cur, true) && front == Resume(p, log, prev)
       else Holding(p, log, cur, front, h)
  }

  lemma StartDrain(p: Parser, log: seq<string>, store: Checkpoint, batches: seq<seq<string>>)
    requires WithinCap(p, AllLines(log)) && CheckpointOk(p, log, store)
    ensures store.marker <= |log|
    ensures Shipped(p, log, batches, |batches|, Resume(p, log, store), Resume(p, log, store))
    ensures Mid(p, log, store, Resume(p, log, store), Held([], store.marker, false), store.marker, store.skip)
  {
    LinesToPrefix(log, store.marker, |log|);
    if store.marker < |log| {
      ChunkLines(log, store.marker);
    }
    ShippedNothing(p, log, batches, Resume(p, log, store));
  }

  lemma MidTake(p: Parser, log: seq<string>, prev: Checkpoint,
                front: nat, h: Held, cur: nat, skipLeading: bool)
    requires Mid(p, log, prev, front, h, cur, skipLeading)
    ensures Mid(p, log, prev, front, TakeChunk(h, skipLeading, cur, Parse(p, Lines(ChunkAt(log, cur)))),
                NextMarker(log, cur), false)
  {
    hide Mid, TakeChunk, Parse;
    if cur >= |log| {
      MidTakeEnd(p, log, prev, front, h, cur, skipLeading);
    } else if skipLeading {
      MidTakeSkip(p, log, prev, front, h, cur);
    } else {
      MidTakeHold(p, log, prev, front, h, cur);
    }
  }

  lemma MidTakeEnd(p: Parser, log: seq<string>, prev: Checkpoint,
                   front: nat, h: Held, cur: nat, skipLeading: bool)
    requires Mid(p, log, prev, front, h, cur, skipLeading) && cur >= |log|
    ensures Mid(p, log, prev, front, TakeChunk(h, skipLeading, cur, Parse(p, Lines(""))), cur, false)
  {
    assert Lines("") == [];
    ParseNothing(p);
  }

  lemma MidTakeHold(p: Parser, log: seq<string>, prev: Checkpoint,
                    front: nat, h: Held, cur: nat)
    requires cur < |log| && Mid(p, log, prev, front, h, cur, false)
    ensures Mid(p, log, prev, front, TakeChunk(h, false, cur, Parse(p, Lines(log[cur]))), cur + 1, false)
  {
    hide CheckpointOk, Firm, Resume, OpensMidEntry, WithinCap, Parse, InChunk;
    ChunkLines(log, cur);
    TakeChunkHolds(p, log, cur, front, h);
  }

  lemma MidTakeSkip(p: Parser, log: seq<string>, prev: Checkpoint,
                    front: nat, h: Held, cur: nat)
    requires cur < |log| && Mid(p, log, prev, front, h, cur, true)
    ensures Mid(p, log, prev, front, TakeChunk(h, true, cur, Parse(p, Lines(log[cur]))), cur + 1, false)
  {
    hide Firm, WithinCap, Parse, Holding, OpensMidEntry;
    ChunkLines(log, cur);
    TakeChunkSkips(p, log, cur, h);
  }

  /** The flushes of one drain: in the middle of a poll, with more chunks pending,
      or at its end. */
  predicate FlushPoint(p: Parser, log: seq<string>, cur: nat, holdLast: bool)
  {
    if cur < |log| then holdLast == p.GroupsMultiline() else cur == |log| && !holdLast
  }

  /** Where a flush leaves the front, what it writes, what it keeps, and the
      checkpoint it aims at. */
  ghost function FlushTo(p: Parser, log: seq<string>, front: nat, h: Held, cur: nat, holdLast: bool): nat
    requires cur <= |log|
  {
    if holdLast && h.pending != [] && front < Off(log, cur) <= |AllLines(log)| then NewestAt(p, log, cur, front)
    else Off(log, cur)
  }

  /** The batch a flush writes is a run of whole entries of what was read. */
  lemma FlushWrites(p: Parser, log: seq<string>, prev: Checkpoint,
                    front: nat, h: Held, cur: nat, holdLast: bool)
    requires Mid(p, log, prev, front, h, cur, false) && FlushPoint(p, log, cur, holdLast)
    ensures var to := FlushTo(p, log, front, h, cur, holdLast);
      && front <= to <= |AllLines(log)| && to <= Off(log, cur)
      && Firm(p, AllLines(log), front)
      && (if cur < |log| then Firm(p, AllLines(log), to) else to == |AllLines(log)|)
      && FlushBatch(h, holdLast) == EntryMessages(p, AllLines(log)[front..to])
  {
    var l := AllLines(log);
    if holdLast && h.pending != [] {
      HoldBack(p, log, cur, front, h);
    } else if holdLast {
      assert l[front..Off(log, cur)] == [];
    }
  }

  /** In the middle of a poll, after the batch is accepted (or there was none), the
      drain may go on from its old checkpoint or from the one the flush aims at. */
  ghost predicate MayGoOn(p: Parser, log: seq<string>, prev: Checkpoint,
                          to: nat, h: Held, cur: nat, holdLast: bool)
  {
    var h' := Held(FlushCarry(h, holdLast), h.lastStart, h.lastStartSkip);
    var ck := FlushCheckpoint(h, cur, holdLast);
    && prev.marker <= ck.marker
    && CheckpointOk(p, log, ck)
    && Mid(p, log, ck, to, h', cur, false)
    && (ck.marker == prev.marker ==> Mid(p, log, prev, to, h', cur, false))
  }

  lemma FlushDone(p: Parser, log: seq<string>, prev: Checkpoint,
                  front: nat, h: Held, cur: nat, holdLast: bool)
    requires Mid(p, log, prev, front, h, cur, false) && FlushPoint(p, log, cur, holdLast) && cur < |log|
    ensures MayGoOn(p, log, prev, FlushTo(p, log, front, h, cur, holdLast), h, cur, holdLast)
  {
    hide Mid, CheckpointOk, FlushTo, MayGoOn;
    if holdLast && h.pending != [] {
      FlushHeld(p, log, prev, front, h, cur);
    } else {
      FlushWrites(p, log, prev, front, h, cur, holdLast);
      FlushAll(p, log, prev, front, h, cur, holdLast);
    }
  }

  /** Everything held goes out; the next chunk starts afresh. */
  lemma FlushAll(p: Parser, log: seq<string>, prev: Checkpoint,
                 front: nat, h: Held, cur: nat, holdLast: bool)
    requires Mid(p, log, prev, front, h, cur, false) && cur < |log| && (holdLast ==> h.pending == [])
    requires Firm(p, AllLines(log), FlushTo(p, log, front, h, cur, holdLast))
    ensures MayGoOn(p, log, prev, FlushTo(p, log, front, h, cur, holdLast), h, cur, holdLast)
  {
    hide CheckpointOk, WithinCap, Firm;
    assert AllLines(log)[Off(log, cur)..Off(log, cur)] == [];
    MidCheckpoint(p, log, cur);
  }

  /** The newest record is held back. */
  lemma FlushHeld(p: Parser, log: seq<string>, prev: Checkpoint,
                  front: nat, h: Held, cur: nat)
    requires Mid(p, log, prev, front, h, cur, false) && h.pending != []
    ensures MayGoOn(p, log, prev, FlushTo(p, log, front, h, cur, true), h, cur, true)
  {
    hide CheckpointOk, WithinCap, Holding, InChunk, Firm;
    HeldIsAhead(p, log, cur, front, h);
    var to := NewestAt(p, log, cur, front);
    HoldBack(p, log, cur, front, h);
    HoldBackCheckpoint(p, log, cur, to, Held([Last(h.pending)], h.lastStart, h.lastStartSkip));
  }

  lemma HeldIsAhead(p: Parser, log: seq<string>, cur: nat, d: nat, h: Held)
    requires cur <= |log| && Holding(p, log, cur, d, h) && h.pending != [] && Off(log, cur) <= |AllLines(log)|
    ensures d < Off(log, cur)
  {
  }

  lemma OffEnd(log: seq<string>)
    ensures Off(log, |log|) == |AllLines(log)|
  {
  }

  /** The batches from number `since` on, end to end, are the entries between
      positions a and b, once each. */
  ghost predicate Shipped(p: Parser, log: seq<string>, batches: seq<seq<string>>, since: nat, a: nat, b: nat)
  {
    && since <= |batches|
    && a <= b <= |AllLines(log)|
    && Boundary(p, AllLines(log), a) && Boundary(p, AllLines(log), b)
    && Flatten(batches[since..]) == EntryMessages(p, AllLines(log)[a..b])
  }

  lemma ShippedNothing(p: Parser, log: seq<string>, batches: seq<seq<string>>, a: nat)
    requires a <= |AllLines(log)| && Boundary(p, AllLines(log), a)
    ensures Shipped(p, log, batches, |batches|, a, a)
  {
  }

  lemma ShippedMore(p: Parser, log: seq<string>, batches: seq<seq<string>>, since: nat,
                    a: nat, b: nat, batch: seq<string>, c: nat)
    requires Shipped(p, log, batches, since, a, b) && b <= c <= |AllLines(log)| && Boundary(p, AllLines(log), c)
    requires batch == EntryMessages(p, AllLines(log)[b..c])
    ensures Shipped(p, log, batches + [batch], since, a, c)
    ensures batch == [] ==> Shipped(p, log, batches, since, a, c)
  {
    BoundarySplit(p, AllLines(log), a, b, c);
    MessagesConcat(Entries(p, AllLines(log)[a..b]), Entries(p, AllLines(log)[b..c]));
    assert (batches + [batch])[since..] == batches[since..] + [batch];
    FlattenConcat(batches[since..], [batch]);
    assert Flatten([batch]) == batch;
  }

  // --------------------------------------------------- over the life of a log

  /** A position that is a boundary for good, or one a poll ended at. */
  ghost predicate Edge(p: Parser, l: seq<string>, ends: set<nat>, k: nat)
  {
    Firm(p, l, k) || k in ends
  }

  ghost predicate MadeFrom(p: Parser, l: seq<string>, batch: seq<string>, span: Span, ends: set<nat>)
  {
    && span.lo <= span.hi <= |l|
    && batch == EntryMessages(p, l[span.lo..span.hi])
    && Edge(p, l, ends, span.lo) && Edge(p, l, ends, span.hi)
  }

  ghost predicate EndsAt(spans: seq<Span>, c: nat) { exists k :: 0 <= k < |spans| && spans[k].hi == c }

  /** Every batch is the records of the lines its span names, and begins and ends
      at an edge; where a poll ended, a batch ended. */
  ghost predicate Delivered(p: Parser, l: seq<string>, batches: seq<seq<string>>, spans: seq<Span>, ends: set<nat>)
  {
    && |batches| == |spans|
    && (forall k :: 0 <= k < |spans| ==> MadeFrom(p, l, batches[k], spans[k], ends))
    && (forall c :: c in ends ==> c <= |l| && (c == 0 || EndsAt(spans, c)))
  }

  lemma BatchDelivered(p: Parser, l: seq<string>, batches: seq<seq<string>>, spans: seq<Span>, ends: set<nat>,
                       batch: seq<string>, span: Span, more: set<nat>)
    requires Delivered(p, l, batches, spans, ends) && MadeFrom(p, l, batch, span, ends + more) && more <= {span.hi}
    ensures Delivered(p, l, batches + [batch], spans + [span], ends + more)
  {
    hide Firm, EntryMessages;
    var bs, ss := batches + [batch], spans + [span];
    forall k | 0 <= k < |ss| ensures MadeFrom(p, l, bs[k], ss[k], ends + more) {
      if k < |spans| {
        assert MadeFrom(p, l, batches[k], spans[k], ends);
      }
    }
    forall c | c in ends + more ensures c <= |l| && (c == 0 || EndsAt(ss, c)) {
      if c in more {
        assert ss[|spans|].hi == c;
      } else if c != 0 {
        var k :| 0 <= k < |spans| && spans[k].hi == c;
        assert ss[k].hi == c;
      }
    }
  }

  /** A poll that ends with everything delivered ends where a batch did. */
  lemma PollEnded(p: Parser, l: seq<string>, batches: seq<seq<string>>, spans: seq<Span>, ends: set<nat>)
    requires Delivered(p, l, batches, spans, ends) && CoveredTo(spans, |l|)
    ensures Delivered(p, l, batches, spans, ends + {|l|})
  {
    hide Firm, EntryMessages;
    forall k | 0 <= k < |spans| ensures MadeFrom(p, l, batches[k], spans[k], ends + {|l|}) {
      assert MadeFrom(p, l, batches[k], spans[k], ends);
    }
    if |l| > 0 {
      assert Covered(spans, |l| - 1);
      var k :| 0 <= k < |spans| && spans[k].lo <= |l| - 1 < spans[k].hi;
      assert MadeFrom(p, l, batches[k], spans[k], ends);
      assert EndsAt(spans, |l|);
    }
  }

  lemma DeliveredStays(p: Parser, l: seq<string>, l': seq<string>, batches: seq<seq<string>>, spans: seq<Span>,
                       ends: set<nat>)
    requires Delivered(p, l, batches, spans, ends) && l <= l'
    ensures Delivered(p, l', batches, spans, ends)
  {
    hide EntryMessages;
    forall k | 0 <= k < |spans| ensures MadeFrom(p, l', batches[k], spans[k], ends) {
      assert MadeFrom(p, l, batches[k], spans[k], ends);
      assert l'[spans[k].lo..spans[k].hi] == l[spans[k].lo..spans[k].hi];
    }
  }

  /** The batch is a run of the log's entries, and the span says which. */
  ghost predicate WholeEntriesOf(p: Parser, l: seq<string>, batch: seq<string>, span: Span)
  {
    exists i, j :: RunOf(p, l, batch, span, i, j)
  }

  ghost predicate RunOf(p: Parser, l: seq<string>, batch: seq<string>, span: Span, i: nat, j: nat)
  {
    var es := Entries(p, l);
    && i <= j <= |es| && |Flatten(es[..i])| == span.lo && |Flatten(es[..j])| == span.hi
    && batch == Messages(es[i..j])
  }

  /** A position is a boundary exactly when some entries end there. */
  lemma BoundaryIsBetweenEntries(p: Parser, l: seq<string>, k: nat)
    requires k <= |l|
    ensures Boundary(p, l, k) ==>
      EntriesBefore(p, l, k) <= |Entries(p, l)| && |Flatten(Entries(p, l)[..EntriesBefore(p, l, k)])| == k
    ensures forall i :: 0 <= i <= |Entries(p, l)| && |Flatten(Entries(p, l)[..i])| == k ==> Boundary(p, l, k)
  {
    hide Entries;
    var es := Entries(p, l);
    if Boundary(p, l, k) {
      BoundarySplit(p, l, 0, k, |l|);
      assert l[0..|l|] == l && l[0..k] == l[..k];
      EntriesHoldAll(p, l[..k]);
    }
    forall i | 0 <= i <= |es| && |Flatten(es[..i])| == k ensures Boundary(p, l, k) {
      if 0 < i < |es| {
        EntryBegins(p, l, i);
      } else if i == |es| {
        assert es[..i] == es;
        EntriesHoldAll(p, l);
      }
    }
  }

  lemma {:induction false} EntryBegins(p: Parser, l: seq<string>, i: nat)
    requires 0 < i < |Entries(p, l)|
    ensures var k := |Flatten(Entries(p, l)[..i])|; k < |l| && p.Starts(l[k])
    decreases |l|
  {
    var es := Entries(p, l);
    var a, b := es[..i], es[i..];
    assert es == a + b;
    EntriesHoldAll(p, l);
    FlattenConcat(a, b);
    assert l[|Flatten(a)|] == es[i][0];
    EntriesStart(p, l, i);
  }

  lemma {:induction false} EntriesStart(p: Parser, l: seq<string>, i: nat)
    requires 0 < i < |Entries(p, l)|
    ensures p.Starts(Entries(p, l)[i][0])
    decreases |l|
  {
    assert l == [l[0]] + l[1..];
    EntriesUnfold(p, l[0], l[1..]);
    var es, rest := Entries(p, l), Entries(p, l[1..]);
    if rest != [] {
      FirstEntryBegins(p, l[1..]);
      var j := if p.Starts(l[1]) then i - 1 else i;
      assert es[i] == rest[j];
      if j > 0 {
        EntriesStart(p, l[1..], j);
      }
    }
  }

  lemma FirstEntryBegins(p: Parser, l: seq<string>)
    requires l != []
    ensures Entries(p, l)[0][0] == l[0]
  {
  }

  lemma WholeOnBoundaries(p: Parser, l: seq<string>, batch: seq<string>, span: Span)
    requires span.lo <= span.hi <= |l| && batch == EntryMessages(p, l[span.lo..span.hi])
    ensures WholeEntriesOf(p, l, batch, span) <==> Boundary(p, l, span.lo) && Boundary(p, l, span.hi)
  {
    hide Entries, Boundary;
    BoundaryIsBetweenEntries(p, l, span.lo);
    BoundaryIsBetweenEntries(p, l, span.hi);
    if Boundary(p, l, span.lo) && Boundary(p, l, span.hi) {
      WholeEntries(p, l, span.lo, span.hi);
      assert RunOf(p, l, batch, span, EntriesBefore(p, l, span.lo), EntriesBefore(p, l, span.hi));
    }
  }

  /** Every batch ever written is whole entries of the log as it is now if and only
      if at every end of a poll the next line to arrive - if there is one yet -
      starts an entry. */
  lemma WholeUnlessContinued(p: Parser, l: seq<string>, batches: seq<seq<string>>, spans: seq<Span>, ends: set<nat>)
    requires Delivered(p, l, batches, spans, ends)
    ensures (forall k :: 0 <= k < |spans| ==> WholeEntriesOf(p, l, batches[k], spans[k]))
       <==> (forall c :: c in ends ==> Boundary(p, l, c))
  {
    hide EntryMessages, WholeEntriesOf;
    forall k | 0 <= k < |spans|
      ensures WholeEntriesOf(p, l, batches[k], spans[k])
         <==> Boundary(p, l, spans[k].lo) && Boundary(p, l, spans[k].hi)
    {
      assert MadeFrom(p, l, batches[k], spans[k], ends);
      WholeOnBoundaries(p, l, batches[k], spans[k]);
    }
    if forall c :: c in ends ==> Boundary(p, l, c) {
      forall k | 0 <= k < |spans| ensures WholeEntriesOf(p, l, batches[k], spans[k]) {
        assert MadeFrom(p, l, batches[k], spans[k], ends);
      }
    } else {
      var c :| c in ends && !Boundary(p, l, c);
      var k :| 0 <= k < |spans| && spans[k].hi == c;
      assert !WholeEntriesOf(p, l, batches[k], spans[k]);
    }
  }

  // ------------------------------------------------------------ chunks arrive

  /** A log from chunk `base` on: the same lines and positions, counted from there. */
  lemma {:induction false} FromBase(log: seq<string>, base: nat, i: nat)
    requires base + i <= |log|
    ensures LinesTo(log, base + i) == LinesTo(log, base) + LinesTo(log[base..], i)
    ensures Off(log, base + i) == Off(log, base) + Off(log[base..], i)
  {
    hide Lines;
    if i > 0 {
      FromBase(log, base, i - 1);
      assert log[base..][i - 1] == log[base + i - 1];
    }
  }

  lemma BaseLines(log: seq<string>, base: nat)
    requires base <= |log|
    ensures AllLines(log) == LinesTo(log, base) + AllLines(log[base..])
  {
    FromBase(log, base, |log| - base);
  }

  lemma FirstStartStays(p: Parser, l: seq<string>, l': seq<string>, k: nat)
    requires k <= |l| && l <= l' && FirstStart(p, l, k) < |l|
    ensures FirstStart(p, l', k) == FirstStart(p, l, k)
    decreases |l| - k
  {
    if k < |l| && !p.Starts(l[k]) {
      FirstStartStays(p, l, l', k + 1);
    }
  }

  /** A checkpoint stays good when chunks arrive. */
  lemma CheckpointStays(p: Parser, log: seq<string>, more: seq<string>, ck: Checkpoint)
    requires CheckpointOk(p, log, ck)
    ensures CheckpointOk(p, log + more, ck)
    ensures ck.marker <= |log| && Resume(p, log + more, ck) == Resume(p, log, ck)
  {
    hide LinesTo, FirstStart;
    LinesArrive(log, more);
    LinesToStays(log, more, ck.marker);
    if ck.marker < |log| {
      ChunkLines(log, ck.marker);
      LinesToStays(log, more, ck.marker + 1);
      assert (log + more)[ck.marker] == log[ck.marker];
      if ck.skip {
        FirstStartStays(p, AllLines(log), AllLines(log + more), Off(log, ck.marker));
      }
    } else {
      NoLinesYet(log);
    }
  }

  lemma NoLinesYet(log: seq<string>)
    requires log == []
    ensures Off(log, 0) == |AllLines(log)| == 0
  {
  }

  /** At the end of a poll whose checkpoint is in place a new count begins. */
  lemma CheckpointAtEnd(p: Parser)
    ensures CheckpointOk(p, [], Checkpoint(0, false))
  {
  }

  // ------------------------------------------- counting from the beginning of a log

  lemma SliceFrom<T>(l: seq<T>, s: nat, m: seq<T>, a: nat, b: nat)
    requires s <= |l| && l[s..] == m && a <= b <= |m|
    ensures l[s + a..s + b] == m[a..b]
  {
    assert forall k :: a <= k < b ==> l[s + k] == l[s..][k];
  }

  lemma RecentLines(log: seq<string>, base: nat)
    requires base <= |log|
    ensures |AllLines(log)| == Off(log, base) + |AllLines(log[base..])|
    ensures AllLines(log)[Off(log, base)..] == AllLines(log[base..])
  {
    BaseLines(log, base);
  }

  function CheckpointFrom(ck: Checkpoint, base: nat): Checkpoint
    requires base <= ck.marker
  {
    Checkpoint(ck.marker - base, ck.skip)
  }

  function HeldFrom(h: Held, base: nat): Held
    requires base <= h.lastStart
  {
    h.(lastStart := h.lastStart - base)
  }

  /** What holds between drains, `base` being the chunk at which the last poll ended
      whose checkpoint got in place, and `ends` the lines at which polls ended. */
  ghost predicate EntriesSound(p: Parser, log: seq<string>, base: nat, ck: Checkpoint,
                               batches: seq<seq<string>>, spans: seq<Span>, ends: set<nat>)
  {
    && AlignedChunks(log) && WithinCap(p, AllLines(log))
    && base <= |log| && base <= ck.marker
    && (Off(log, base) == 0 || Off(log, base) in ends)
    && Delivered(p, AllLines(log), batches, spans, ends)
    && CheckpointOk(p, log[base..], CheckpointFrom(ck, base))
  }

  ghost predicate EntriesMid(p: Parser, log: seq<string>, base: nat, prev: Checkpoint, front: nat, h: Held,
                             cur: nat, skipLeading: bool)
  {
    && base <= prev.marker && base <= h.lastStart && base <= cur <= |log| && Off(log, base) <= front
    && Mid(p, log[base..], CheckpointFrom(prev, base), front - Off(log, base), HeldFrom(h, base), cur - base, skipLeading)
  }

  /** The batches from number `since` on, end to end, are the entries from position
      a up to position b, once each. */
  ghost predicate EntriesShipped(p: Parser, log: seq<string>, base: nat, batches: seq<seq<string>>, since: nat, a: nat, b: nat)
  {
    && base <= |log| && Off(log, base) <= a <= b
    && Shipped(p, log[base..], batches, since, a - Off(log, base), b - Off(log, base))
  }

  lemma ShippedEntries(p: Parser, log: seq<string>, base: nat, batches: seq<seq<string>>, since: nat, a: nat, b: nat)
    requires EntriesShipped(p, log, base, batches, since, a, b)
    ensures since <= |batches| && b <= |AllLines(log)|
    ensures Flatten(batches[since..]) == EntryMessages(p, AllLines(log)[a..b])
  {
    hide AllLines, EntryMessages, Boundary;
    var s := Off(log, base);
    RecentLines(log, base);
    SliceFrom(AllLines(log), s, AllLines(log[base..]), a - s, b - s);
  }

  lemma LogLines(log: seq<string>)
    requires AlignedChunks(log)
    ensures forall i :: 0 <= i < |AllLines(log)| ==> IsLine(AllLines(log)[i])
  {
    LinesOfConcat(log);
    LinesAreLines(Concat(log));
  }

  lemma RecentAligned(p: Parser, log: seq<string>, base: nat)
    requires base <= |log| && AlignedChunks(log) && WithinCap(p, AllLines(log))
    ensures AlignedChunks(log[base..]) && WithinCap(p, AllLines(log[base..]))
  {
    BaseLines(log, base);
    WithinCapParts(p, LinesTo(log, base), AllLines(log[base..]));
  }

  lemma ResumeFrom(p: Parser, log: seq<string>, base: nat, ck: Checkpoint)
    requires base <= ck.marker <= |log|
    ensures ResumeLine(p, log, ck) == Off(log, base) + ResumeLine(p, log[base..], CheckpointFrom(ck, base))
  {
    FromBase(log, base, ck.marker - base);
  }

  /** A drain may begin. */
  lemma EntriesBegin(p: Parser, log: seq<string>, base: nat, ck: Checkpoint, batches: seq<seq<string>>,
                     spans: seq<Span>, ends: set<nat>)
    requires EntriesSound(p, log, base, ck, batches, spans, ends)
    ensures ck.marker <= |log|
    ensures EntriesMid(p, log, base, ck, ResumeLine(p, log, ck), Held([], ck.marker, false), ck.marker, ck.skip)
    ensures EntriesShipped(p, log, base, batches, |batches|, ResumeLine(p, log, ck), ResumeLine(p, log, ck))
  {
    hide WithinCap, Delivered, Mid, Shipped, ResumeLine;
    RecentAligned(p, log, base);
    InsideLog(p, log[base..], CheckpointFrom(ck, base));
    ResumeFrom(p, log, base, ck);
    ResumeAgrees(p, log[base..], CheckpointFrom(ck, base));
    StartDrain(p, log[base..], CheckpointFrom(ck, base), batches);
  }

  lemma InsideLog(p: Parser, log: seq<string>, ck: Checkpoint)
    requires CheckpointOk(p, log, ck)
    ensures ck.marker <= |log|
  {
  }

  lemma EntriesTake(p: Parser, log: seq<string>, base: nat, prev: Checkpoint, front: nat, h: Held,
                    cur: nat, skipLeading: bool)
    requires EntriesMid(p, log, base, prev, front, h, cur, skipLeading)
    ensures EntriesMid(p, log, base, prev, front, TakeChunk(h, skipLeading, cur, Parse(p, Lines(ChunkAt(log, cur)))),
                       NextMarker(log, cur), false)
  {
    hide Mid, Parse, Off;
    MidTake(p, log[base..], CheckpointFrom(prev, base), front - Off(log, base), HeldFrom(h, base), cur - base, skipLeading);
    assert ChunkAt(log[base..], cur - base) == ChunkAt(log, cur);
  }

  /** Where the poll ends, if this is its last flush. */
  function PollEnd(log: seq<string>, cur: nat): set<nat> { if cur == |log| then {|AllLines(log)|} else {} }

  /** In the middle of a poll, the drain may go on from either checkpoint. */
  ghost predicate EntriesGoOn(p: Parser, log: seq<string>, base: nat, prev: Checkpoint, to: nat, h: Held,
                              cur: nat, holdLast: bool)
  {
    var h' := Held(FlushCarry(h, holdLast), h.lastStart, h.lastStartSkip);
    var ck := FlushCheckpoint(h, cur, holdLast);
    && base <= |log| && base <= ck.marker
    && CheckpointOk(p, log[base..], CheckpointFrom(ck, base))
    && EntriesMid(p, log, base, ck, to, h', cur, false)
    && (ck.marker == prev.marker ==> EntriesMid(p, log, base, prev, to, h', cur, false))
  }

  /** All a flush relies on, at once. */
  lemma EntriesFlush(p: Parser, log: seq<string>, base: nat, prev: Checkpoint, batches: seq<seq<string>>, spans: seq<Span>,
                     ends: set<nat>, front: nat, h: Held, cur: nat, holdLast: bool, since: nat, from: nat)
    requires EntriesSound(p, log, base, prev, batches, spans, ends)
    requires EntriesMid(p, log, base, prev, front, h, cur, false) && FlushPoint(p, log, cur, holdLast)
    requires EntriesShipped(p, log, base, batches, since, from, front)
    requires front <= FlushedTo(log, h, cur, holdLast)
    ensures var to, batch := FlushedTo(log, h, cur, holdLast), FlushBatch(h, holdLast);
      && EntriesSound(p, log, base, prev, batches + [batch], spans + [Span(front, to)], ends + PollEnd(log, cur))
      && EntriesShipped(p, log, base, batches + [batch], since, from, to)
      && (batch == [] ==> EntriesShipped(p, log, base, batches, since, from, to))
      && (cur < |log| ==> EntriesGoOn(p, log, base, prev, to, h, cur, holdLast))
  {
    hide Mid, Delivered, AllLines, Off, EntryMessages, CheckpointOk, Boundary, Shipped, FlushTo, FlushedTo, FlushBatch,
         WithinCap, AlignedChunks, MadeFrom;
    var r, s := log[base..], Off(log, base);
    var prev', h', front' := CheckpointFrom(prev, base), HeldFrom(h, base), front - s;
    var to', batch := FlushTo(p, r, front', h', cur - base, holdLast), FlushBatch(h, holdLast);
    BatchFrom(h, base, holdLast);
    FlushedToFrom(p, log, base, prev, front, h, cur, holdLast);
    FlushWrites(p, r, prev', front', h', cur - base, holdLast);
    RecentLines(log, base);
    EdgesOfFlush(p, AllLines(log), r, s, ends, front', to', cur - base);
    SliceFrom(AllLines(log), s, AllLines(r), front', to');
    BatchMadeFrom(p, AllLines(log), batch, Span(front, s + to'), ends + PollEnd(log, cur));
    BatchDelivered(p, AllLines(log), batches, spans, ends, batch, Span(front, s + to'), PollEnd(log, cur));
    FirmIsBoundary(p, AllLines(r), to');
    ShippedMore(p, r, batches, since, from - s, front', batch, to');
    if cur < |log| {
      FlushDone(p, r, prev', front', h', cur - base, holdLast);
      GoOnFrom(p, log, base, prev, s + to', h, cur, holdLast);
    }
  }

  lemma BatchMadeFrom(p: Parser, l: seq<string>, batch: seq<string>, span: Span, ends: set<nat>)
    requires span.lo <= span.hi <= |l| && batch == EntryMessages(p, l[span.lo..span.hi])
    requires Edge(p, l, ends, span.lo) && Edge(p, l, ends, span.hi)
    ensures MadeFrom(p, l, batch, span, ends)
  {
  }

  lemma BatchFrom(h: Held, base: nat, holdLast: bool)
    requires base <= h.lastStart
    ensures FlushBatch(HeldFrom(h, base), holdLast) == FlushBatch(h, holdLast)
    ensures FlushCarry(HeldFrom(h, base), holdLast) == FlushCarry(h, holdLast)
  {
  }

  lemma FlushedToFrom(p: Parser, log: seq<string>, base: nat, prev: Checkpoint, front: nat, h: Held, cur: nat, holdLast: bool)
    requires EntriesMid(p, log, base, prev, front, h, cur, false) && AlignedChunks(log)
    ensures FlushedTo(log, h, cur, holdLast)
         == Off(log, base) + FlushTo(p, log[base..], front - Off(log, base), HeldFrom(h, base), cur - base, holdLast)
  {
    hide LinesTo, NewestLines, CheckpointOk, WithinCap;
    var r := log[base..];
    BatchFrom(h, base, holdLast);
    FromBase(log, base, cur - base);
    LogLines(r);
    FlushedToAgrees(p, r, front - Off(log, base), HeldFrom(h, base), cur - base, holdLast);
  }

  lemma GoOnFrom(p: Parser, log: seq<string>, base: nat, prev: Checkpoint, to: nat, h: Held, cur: nat, holdLast: bool)
    requires base <= prev.marker && base <= h.lastStart && base <= cur <= |log| && Off(log, base) <= to
    requires MayGoOn(p, log[base..], CheckpointFrom(prev, base), to - Off(log, base), HeldFrom(h, base), cur - base, holdLast)
    ensures EntriesGoOn(p, log, base, prev, to, h, cur, holdLast)
  {
    hide Mid, CheckpointOk, Off;
  }

  lemma FirmIsBoundary(p: Parser, l: seq<string>, k: nat)
    requires k <= |l| && (Firm(p, l, k) || k == |l|)
    ensures Boundary(p, l, k)
  {
  }

  lemma EdgesOfFlush(p: Parser, l: seq<string>, log: seq<string>, s: nat, ends: set<nat>, front: nat, to: nat, cur: nat)
    requires (s == 0 || s in ends) && |l| == s + |AllLines(log)| && l[s..] == AllLines(log)
    requires front <= to <= |AllLines(log)| && Firm(p, AllLines(log), front)
    requires if cur < |log| then Firm(p, AllLines(log), to) else cur == |log| && to == |AllLines(log)|
    ensures var more := if cur == |log| then {|l|} else {};
      Edge(p, l, ends + more, s + front) && Edge(p, l, ends + more, s + to)
  {
    hide AllLines;
    var m := AllLines(log);
    assert forall k :: 0 <= k < |m| ==> m[k] == l[s + k];
  }

  lemma EntriesAdvance(p: Parser, log: seq<string>, base: nat, ck: Checkpoint, batches: seq<seq<string>>,
                       spans: seq<Span>, ends: set<nat>, ck': Checkpoint)
    requires EntriesSound(p, log, base, ck, batches, spans, ends)
    requires base <= ck'.marker && CheckpointOk(p, log[base..], CheckpointFrom(ck', base))
    ensures EntriesSound(p, log, base, ck', batches, spans, ends)
  {
    hide Delivered, CheckpointOk, WithinCap, AlignedChunks, Off;
  }

  /** The checkpoint at the end of a poll is in place: the count begins anew. */
  lemma EntriesEnd(p: Parser, log: seq<string>, base: nat, ck: Checkpoint, batches: seq<seq<string>>,
                   spans: seq<Span>, ends: set<nat>)
    requires EntriesSound(p, log, base, ck, batches, spans, ends) && CoveredTo(spans, |AllLines(log)|)
    ensures EntriesSound(p, log, |log|, Checkpoint(|log|, false), batches, spans, ends + {|AllLines(log)|})
  {
    hide Delivered, CheckpointOk, WithinCap, AlignedChunks, CoveredTo;
    PollEnded(p, AllLines(log), batches, spans, ends);
    CheckpointAtEnd(p);
    OffEnd(log);
    assert log[|log|..] == [];
  }

  lemma CappedBefore(p: Parser, log: seq<string>, more: seq<string>)
    requires WithinCap(p, AllLines(log + more))
    ensures WithinCap(p, AllLines(log))
  {
    hide WithinCap, AllLines;
    LinesArrive(log, more);
    var l := AllLines(log + more);
    assert l == AllLines(log) + l[|AllLines(log)|..];
    WithinCapParts(p, AllLines(log), l[|AllLines(log)|..]);
  }

  lemma EntriesArrive(p: Parser, log: seq<string>, base: nat, ck: Checkpoint, batches: seq<seq<string>>,
                      spans: seq<Span>, ends: set<nat>, more: seq<string>)
    requires EntriesSound(p, log, base, ck, batches, spans, ends)
    requires AlignedChunks(log + more) && WithinCap(p, AllLines(log + more))
    ensures EntriesSound(p, log + more, base, ck, batches, spans, ends)
  {
    hide WithinCap, Delivered, CheckpointOk, LinesTo;
    LinesArrive(log, more);
    DeliveredStays(p, AllLines(log), AllLines(log + more), batches, spans, ends);
    CheckpointStays(p, log[base..], more, CheckpointFrom(ck, base));
    LinesToStays(log, more, base);
    assert (log + more)[base..] == log[base..] + more;
  }
}
